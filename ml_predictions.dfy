/** The server-side heuristics of the ML module: the assignment suggestion (score every
    active developer on load, similar work, experience and quality, suggest the best) and
    the sprint risk prediction (committed effort against capacity, unassigned share), with
    the tables they write: suggestions, risk predictions and training rows. */
module MlPredictions {
  import opened Wrappers
  import opened Scrum
  import opened Backlog
  import Psp
  import Text
  import PredictRisk
  import SprintMetrics

  /** A tag of a story (`story.tags`). */
  datatype Tag = Tag(storyId: Id, value: string)

  /** The kinds of training row this module writes. */
  datatype DataType = ASSIGNMENT | VELOCITY

  /** `prisma.task.count({ where })`: the tasks a filter accepts. */
  function Count(tasks: seq<Task>, p: Task -> bool): (n: nat)
    ensures n <= |tasks|
  {
    if tasks == [] then 0 else (if p(tasks[0]) then 1 else 0) + Count(tasks[1..], p)
  }

  /** A narrower filter never counts more. */
  lemma {:induction false} CountWeaker(tasks: seq<Task>, p: Task -> bool, q: Task -> bool)
    requires forall t :: p(t) ==> q(t)
    ensures Count(tasks, p) <= Count(tasks, q)
  {
    if tasks != [] {
      CountWeaker(tasks[1..], p, q);
    }
  }

  // ---------------------------------------------------------------------------------
  // Developer statistics
  // ---------------------------------------------------------------------------------

  /** The task's story belongs to the project (`story: { projectId }`). */
  predicate InProject(stories: seq<Story>, t: Task, projectId: Id) {
    var s := FindStory(stories, t.storyId);
    s.Some? && s.value.projectId == projectId
  }

  /** The story carries a tag with one of the values. */
  predicate Tagged(tags: seq<Tag>, storyId: Id, values: seq<string>) {
    exists i :: 0 <= i < |tags| && tags[i].storyId == storyId && tags[i].value in values
  }

  /** `story.tags.map(t => t.value)`. */
  function TagValues(tags: seq<Tag>, storyId: Id): (r: seq<string>)
    ensures forall v :: v in r <==> exists i :: 0 <= i < |tags| && tags[i].storyId == storyId && tags[i].value == v
  {
    if tags == [] then []
    else
      var rest := TagValues(tags[1..], storyId);
      assert forall i :: 1 <= i < |tags| ==> tags[i] == tags[1..][i - 1];
      (if tags[0].storyId == storyId then [tags[0].value] else []) + rest
  }

  /** Load: tasks assigned to the user in TODO or IN_PROGRESS, in any project. */
  predicate ActiveWork(t: Task, userId: Id) {
    t.assignedToId == Some(userId) && (t.status == TODO || t.status == TaskStatus.IN_PROGRESS)
  }

  /** Experience: DONE tasks of the user in the project. */
  predicate CompletedIn(stories: seq<Story>, t: Task, userId: Id, projectId: Id) {
    t.assignedToId == Some(userId) && t.status == TaskStatus.DONE && InProject(stories, t, projectId)
  }

  /** Similar work: completed tasks whose story shares a tag value with the story at hand. */
  predicate SimilarIn(stories: seq<Story>, tags: seq<Tag>, t: Task, userId: Id, projectId: Id, values: seq<string>) {
    CompletedIn(stories, t, userId, projectId) && Tagged(tags, t.storyId, values)
  }

  /** The reopened tasks exactly as they are counted: any status, only `reopenCount > 0`. */
  predicate ReopenedAsWritten(stories: seq<Story>, t: Task, userId: Id, projectId: Id) {
    t.assignedToId == Some(userId) && t.reopenCount > 0 && InProject(stories, t, projectId)
  }

  /** The reopened tasks the rate is meant to measure: completed tasks that were reopened. */
  predicate ReopenedDone(stories: seq<Story>, t: Task, userId: Id, projectId: Id) {
    CompletedIn(stories, t, userId, projectId) && t.reopenCount > 0
  }

  /** A count over a larger count is a fraction in 0..1. */
  lemma RatioInUnit(x: nat, y: nat)
    requires 0 < y && x <= y
    ensures 0.0 <= x as real / y as real <= 1.0
  {
    var q := x as real / y as real;
    assert q * (y as real) == x as real;
  }

  /** `reopenRate`: reopened over completed, and 0 without completed work. */
  function ReopenRate(reopened: nat, completed: nat): (r: real)
    ensures completed == 0 ==> r == 0.0
    ensures r >= 0.0
    ensures reopened <= completed ==> r <= 1.0
  {
    if completed > 0 then
      if reopened <= completed then
        RatioInUnit(reopened, completed);
        reopened as real / completed as real
      else reopened as real / completed as real
    else 0.0
  }

  /** The reopen rate as the source computes it. */
  function ReopenRateAsWritten(tasks: seq<Task>, stories: seq<Story>, userId: Id, projectId: Id): real {
    ReopenRate(Count(tasks, t => ReopenedAsWritten(stories, t, userId, projectId)),
               Count(tasks, t => CompletedIn(stories, t, userId, projectId)))
  }

  /** A developer with one completed task and two reopened tasks still in progress gets a
      reopen rate of 2, so a quality score of -1, outside the 0..1 range the factors are
      normalised to. */
  lemma QualityBelowZeroAsWritten()
    ensures var story := Story("s", "p", "US-001", "", "", "", "", "", None, 0, 0, 0, 0.0, StoryStatus.IN_PROGRESS, None);
            var done := Task("t1", "s", "T-001", "", None, 1.0, TaskStatus.DONE, Some("u"), false, 0, None, None);
            var reopened := done.(status := TaskStatus.IN_PROGRESS, reopenCount := 1);
            1.0 - ReopenRateAsWritten([done, reopened, reopened.(id := "t3")], [story], "u", "p") == -1.0
  {
    var story := Story("s", "p", "US-001", "", "", "", "", "", None, 0, 0, 0, 0.0, StoryStatus.IN_PROGRESS, None);
    var done := Task("t1", "s", "T-001", "", None, 1.0, TaskStatus.DONE, Some("u"), false, 0, None, None);
    var reopened := done.(status := TaskStatus.IN_PROGRESS, reopenCount := 1);
    var tasks := [done, reopened, reopened.(id := "t3")];
    assert FindStory([story], "s") == Some(story);
    assert InProject([story], done, "p") && InProject([story], reopened, "p") && InProject([story], tasks[2], "p");
    var rp := t => ReopenedAsWritten([story], t, "u", "p");
    var cp := t => CompletedIn([story], t, "u", "p");
    assert Count(tasks[2..], rp) == 1 && Count(tasks[2..], cp) == 0;
    assert tasks[1..][1..] == tasks[2..];
    assert Count(tasks[1..], rp) == 2 && Count(tasks[1..], cp) == 0;
    assert Count(tasks, rp) == 2 && Count(tasks, cp) == 1;
    assert ReopenRateAsWritten(tasks, [story], "u", "p") == ReopenRate(2, 1) == 2.0;
  }

  /** The four counts and the reopen rate of one developer. */
  datatype DevStats = DevStats(userId: Id, activeTasks: nat, similarTasksCompleted: nat, totalCompleted: nat, reopenedTasks: nat, reopenRate: real)

  /** A developer's statistics for a story, with the corrected reopen count. */
  function Stats(tasks: seq<Task>, stories: seq<Story>, tags: seq<Tag>, story: Story, userId: Id): (d: DevStats)
    ensures d.userId == userId
    ensures d.similarTasksCompleted <= d.totalCompleted && d.reopenedTasks <= d.totalCompleted
    ensures 0.0 <= d.reopenRate <= 1.0
    ensures d.totalCompleted == 0 ==> d.reopenRate == 0.0
  {
    var values := TagValues(tags, story.id);
    var active := Count(tasks, t => ActiveWork(t, userId));
    var similar := Count(tasks, t => SimilarIn(stories, tags, t, userId, story.projectId, values));
    var total := Count(tasks, t => CompletedIn(stories, t, userId, story.projectId));
    var reopened := Count(tasks, t => ReopenedDone(stories, t, userId, story.projectId));
    CountWeaker(tasks, t => SimilarIn(stories, tags, t, userId, story.projectId, values), t => CompletedIn(stories, t, userId, story.projectId));
    CountWeaker(tasks, t => ReopenedDone(stories, t, userId, story.projectId), t => CompletedIn(stories, t, userId, story.projectId));
    DevStats(userId, active, similar, total, reopened, ReopenRate(reopened, total))
  }

  // ---------------------------------------------------------------------------------
  // Scoring
  // ---------------------------------------------------------------------------------

  /** The normalised factors of one developer. */
  datatype Factors = Factors(loadScore: real, similarityScore: real, experienceScore: real, qualityScore: real)

  predicate Unit(x: real) {
    0.0 <= x <= 1.0
  }

  /** `x / max`, or the default when the maximum is 0. */
  function Share(x: nat, max: nat, default: real): (r: real)
    ensures max == 0 ==> r == default
    ensures max > 0 && x <= max ==> Unit(r)
  {
    if max == 0 then default
    else if x <= max then
      RatioInUnit(x, max);
      x as real / max as real
    else x as real / max as real
  }

  /** The factors against the team's maxima: load 1 when nobody has active work, similarity
      0.5 and experience 0.3 when nobody has any; each in 0..1 when the developer is within
      the maxima. */
  function FactorsOf(d: DevStats, maxActive: nat, maxSimilar: nat, maxTotal: nat): (f: Factors)
    ensures maxActive == 0 ==> f.loadScore == 1.0
    ensures maxSimilar == 0 ==> f.similarityScore == 0.5
    ensures maxTotal == 0 ==> f.experienceScore == 0.3
    ensures f.qualityScore == 1.0 - d.reopenRate
    ensures d.activeTasks <= maxActive && d.similarTasksCompleted <= maxSimilar && d.totalCompleted <= maxTotal && Unit(d.reopenRate)
      ==> Unit(f.loadScore) && Unit(f.similarityScore) && Unit(f.experienceScore) && Unit(f.qualityScore)
  {
    Factors(if maxActive == 0 then 1.0 else 1.0 - Share(d.activeTasks, maxActive, 0.0),
            Share(d.similarTasksCompleted, maxSimilar, 0.5),
            Share(d.totalCompleted, maxTotal, 0.3),
            1.0 - d.reopenRate)
  }

  /** The weighted score: load 40%, similarity 30%, experience 20%, quality 10%. */
  function TotalScore(f: Factors): (s: real)
    ensures Unit(f.loadScore) && Unit(f.similarityScore) && Unit(f.experienceScore) && Unit(f.qualityScore) ==> Unit(s)
  {
    f.loadScore * 0.4 + f.similarityScore * 0.3 + f.experienceScore * 0.2 + f.qualityScore * 0.1
  }

  /** Of two developers alike but for their load, the one with fewer active tasks scores
      strictly higher. */
  lemma LighterLoadScoresHigher(a: DevStats, b: DevStats, maxActive: nat, maxSimilar: nat, maxTotal: nat)
    requires a.activeTasks < b.activeTasks <= maxActive
    requires a.similarTasksCompleted == b.similarTasksCompleted && a.totalCompleted == b.totalCompleted && a.reopenRate == b.reopenRate
    ensures TotalScore(FactorsOf(a, maxActive, maxSimilar, maxTotal)) > TotalScore(FactorsOf(b, maxActive, maxSimilar, maxTotal))
  {
    DivStrict(a.activeTasks as real, b.activeTasks as real, maxActive as real);
  }

  lemma DivStrict(x: real, y: real, m: real)
    requires x < y && m > 0.0
    ensures x / m < y / m
  {
  }

  /** `Math.max(...)` of one count over the team (0 for no developers). */
  function MaxBy(stats: seq<DevStats>, f: DevStats -> nat): (m: nat)
    ensures forall i :: 0 <= i < |stats| ==> f(stats[i]) <= m
    ensures |stats| > 0 ==> exists i :: 0 <= i < |stats| && f(stats[i]) == m
  {
    if stats == [] then 0
    else
      var rest := MaxBy(stats[1..], f);
      assert forall i :: 1 <= i < |stats| ==> stats[i] == stats[1..][i - 1];
      if f(stats[0]) >= rest then f(stats[0]) else rest
  }

  /** A developer with factors and score. */
  datatype Scored = Scored(stats: DevStats, factors: Factors, totalScore: real)

  /** The team's maxima of the three counts. */
  datatype Maxima = Maxima(active: nat, similar: nat, total: nat)

  function MaximaOf(stats: seq<DevStats>): (m: Maxima)
    ensures forall i :: 0 <= i < |stats| ==> stats[i].activeTasks <= m.active && stats[i].similarTasksCompleted <= m.similar && stats[i].totalCompleted <= m.total
  {
    Maxima(MaxBy(stats, (d: DevStats) => d.activeTasks), MaxBy(stats, (d: DevStats) => d.similarTasksCompleted), MaxBy(stats, (d: DevStats) => d.totalCompleted))
  }

  /** One developer scored against the maxima; the score lies in 0..1 when the developer is
      within them. */
  function ScoreWith(d: DevStats, m: Maxima): (r: Scored)
    ensures r.stats == d && r.totalScore == TotalScore(r.factors)
    ensures d.activeTasks <= m.active && d.similarTasksCompleted <= m.similar && d.totalCompleted <= m.total && Unit(d.reopenRate)
      ==> Unit(r.totalScore)
  {
    var f := FactorsOf(d, m.active, m.similar, m.total);
    Scored(d, f, TotalScore(f))
  }

  /** Every developer scored against the team's maxima; every score lies in 0..1. */
  function ScoreAll(stats: seq<DevStats>): (r: seq<Scored>)
    requires forall i :: 0 <= i < |stats| ==> Unit(stats[i].reopenRate)
    ensures |r| == |stats|
    ensures forall i :: 0 <= i < |r| ==> r[i].stats == stats[i] && r[i].totalScore == TotalScore(r[i].factors) && Unit(r[i].totalScore)
  {
    var m := MaximaOf(stats);
    var r := seq(|stats|, i requires 0 <= i < |stats| => ScoreWith(stats[i], m));
    assert forall i :: 0 <= i < |stats| ==> r[i] == ScoreWith(stats[i], m);
    r
  }

  /** The statistics of each developer, in member order. */
  function AllStats(tasks: seq<Task>, stories: seq<Story>, tags: seq<Tag>, story: Story, devs: seq<Member>): (r: seq<DevStats>)
    ensures |r| == |devs|
    ensures forall i :: 0 <= i < |r| ==> r[i] == Stats(tasks, stories, tags, story, devs[i].userId) && Unit(r[i].reopenRate)
  {
    seq(|devs|, i requires 0 <= i < |devs| => Stats(tasks, stories, tags, story, devs[i].userId))
  }

  /** Every developer of the team with statistics and score, in member order. */
  function Scoreboard(tasks: seq<Task>, stories: seq<Story>, tags: seq<Tag>, story: Story, devs: seq<Member>): (r: seq<Scored>)
    ensures |r| == |devs|
    ensures forall i :: 0 <= i < |r| ==> r[i].stats.userId == devs[i].userId && Unit(r[i].totalScore)
  {
    var stats := AllStats(tasks, stories, tags, story, devs);
    var r := ScoreAll(stats);
    assert forall i :: 0 <= i < |r| ==> r[i].stats == stats[i] && stats[i].userId == devs[i].userId;
    r
  }

  /** The suggested developer: after the stable descending sort by score, the first, so a
      maximal score and the earliest developer among equals; none without developers. */
  function Best(board: seq<Scored>): (r: Option<Scored>)
    ensures r.None? <==> board == []
    ensures r.Some? ==> exists i :: (0 <= i < |board| && r.value == board[i]
      && forall j :: 0 <= j < i ==> board[j].totalScore < r.value.totalScore)
    ensures r.Some? ==> forall j :: 0 <= j < |board| ==> board[j].totalScore <= r.value.totalScore
  {
    if board == [] then None
    else
      var scores := seq(|board|, i requires 0 <= i < |board| => board[i].totalScore);
      var best := PredictRisk.ArgMax(scores);
      assert forall j :: 0 <= j < |board| ==> scores[j] == board[j].totalScore;
      Some(board[best])
  }

  /** The suggestion among a team's developers: one of them, with a score in 0..1. */
  function Suggest(tasks: seq<Task>, stories: seq<Story>, tags: seq<Tag>, story: Story, devs: seq<Member>): (r: Option<Scored>)
    ensures r.None? <==> devs == []
    ensures r.Some? ==> r == Best(Scoreboard(tasks, stories, tags, story, devs))
    ensures r.Some? ==> (exists i :: 0 <= i < |devs| && r.value.stats.userId == devs[i].userId) && Unit(r.value.totalScore)
  {
    Best(Scoreboard(tasks, stories, tags, story, devs))
  }

  /** The suggestion's explanation: load, similar work and completed work. */
  function Reason(d: DevStats): string {
    "Carga: " + Text.NatToString(d.activeTasks) + " tareas. "
      + "Experiencia similar: " + Text.NatToString(d.similarTasksCompleted) + " tareas. "
      + "Total completadas: " + Text.NatToString(d.totalCompleted)
  }

  // ---------------------------------------------------------------------------------
  // Risk
  // ---------------------------------------------------------------------------------

  /** `sprint.capacity || members * 40`: a missing or zero capacity falls back to 40 hours
      per active member. */
  function TeamCapacity(capacity: Option<real>, activeMembers: nat): (c: real)
    ensures capacity.Some? && capacity.value != 0.0 ==> c == capacity.value
    ensures capacity.None? || capacity.value == 0.0 ==> c == 40.0 * activeMembers as real
  {
    if capacity.Some? && capacity.value != 0.0 then capacity.value else 40.0 * activeMembers as real
  }

  /** `!t.assignedToId`: no assignee, or an empty one. */
  predicate Unassigned(t: Task) {
    t.assignedToId.None? || t.assignedToId.value == ""
  }

  /** The share of unassigned tasks: 0 without tasks, and always within 0..1. */
  function UnassignedShare(tasks: seq<Task>): (s: real)
    ensures Unit(s)
    ensures tasks == [] ==> s == 0.0
    ensures (forall i :: 0 <= i < |tasks| ==> !Unassigned(tasks[i])) ==> s == 0.0
  {
    var n := Count(tasks, Unassigned);
    CountNone(tasks, Unassigned);
    if |tasks| > 0 then
      RatioInUnit(n, |tasks|);
      n as real / |tasks| as real
    else 0.0
  }

  lemma {:induction false} CountNone(tasks: seq<Task>, p: Task -> bool)
    ensures (forall i :: 0 <= i < |tasks| ==> !p(tasks[i])) ==> Count(tasks, p) == 0
  {
    if tasks != [] {
      CountNone(tasks[1..], p);
      assert forall i :: 1 <= i < |tasks| ==> tasks[i] == tasks[1..][i - 1];
    }
  }

  function SumReal(xs: seq<real>): real {
    if xs == [] then 0.0 else xs[0] + SumReal(xs[1..])
  }

  /** `s.actualVelocity || 0` of the project's COMPLETED sprints, in table order. */
  function CompletedVelocities(sprints: seq<Sprint>, projectId: Id): (r: seq<real>)
    ensures |r| == 0 <==> forall i :: 0 <= i < |sprints| ==> !(sprints[i].projectId == projectId && sprints[i].status == COMPLETED)
  {
    if sprints == [] then []
    else
      var rest := CompletedVelocities(sprints[1..], projectId);
      assert forall i :: 1 <= i < |sprints| ==> sprints[i] == sprints[1..][i - 1];
      (if sprints[0].projectId == projectId && sprints[0].status == COMPLETED then [sprints[0].actualVelocity.GetOr(0.0)] else []) + rest
  }

  /** Historical velocity: the mean of (at most) the first three completed sprints'
      velocities, and none without a completed sprint. */
  function HistoricalVelocity(sprints: seq<Sprint>, projectId: Id): (r: Option<real>)
    ensures r.None? <==> forall i :: 0 <= i < |sprints| ==> !(sprints[i].projectId == projectId && sprints[i].status == COMPLETED)
  {
    var taken := FirstThree(CompletedVelocities(sprints, projectId));
    if taken == [] then None else Some(Mean(taken))
  }

  /** `take: 3`. */
  function FirstThree(vs: seq<real>): (r: seq<real>)
    ensures |r| <= 3 && |r| <= |vs| && (|r| == 0 <==> |vs| == 0)
    ensures forall i :: 0 <= i < |r| ==> r[i] == vs[i]
  {
    if |vs| <= 3 then vs else vs[..3]
  }

  function Mean(xs: seq<real>): real
    requires |xs| > 0
  {
    SumReal(xs) / |xs| as real
  }

  /** A mean lies between the bounds of what it averages. */
  lemma MeanWithin(xs: seq<real>, lo: real, hi: real)
    requires |xs| > 0 && forall i :: 0 <= i < |xs| ==> lo <= xs[i] <= hi
    ensures lo <= Mean(xs) <= hi
  {
    SumWithin(xs, lo, hi);
    DivWithin(SumReal(xs), |xs| as real, lo, hi);
  }

  lemma {:induction false} SumWithin(xs: seq<real>, lo: real, hi: real)
    requires forall i :: 0 <= i < |xs| ==> lo <= xs[i] <= hi
    ensures (|xs| as real) * lo <= SumReal(xs) <= (|xs| as real) * hi
  {
    if xs != [] {
      SumWithin(xs[1..], lo, hi);
    }
  }

  /** The historical velocity lies between the lowest and the highest velocity of the
      project's completed sprints. */
  lemma HistoricalVelocityWithin(sprints: seq<Sprint>, projectId: Id, lo: real, hi: real)
    requires forall v :: v in CompletedVelocities(sprints, projectId) ==> lo <= v <= hi
    requires HistoricalVelocity(sprints, projectId).Some?
    ensures lo <= HistoricalVelocity(sprints, projectId).value <= hi
  {
    var vs := CompletedVelocities(sprints, projectId);
    var taken := FirstThree(vs);
    assert forall i :: 0 <= i < |taken| ==> taken[i] == vs[i] && vs[i] in vs;
    MeanWithin(taken, lo, hi);
  }

  lemma DivWithin(s: real, n: real, lo: real, hi: real)
    requires n > 0.0 && lo * n <= s <= hi * n
    ensures lo <= s / n <= hi
  {
  }

  /** The rule: HIGH (0.9) above 120% of capacity, else MEDIUM (0.8) above capacity or with
      more than 30% of the tasks unassigned, else LOW (0.7). */
  function RiskOf(committed: real, capacity: real, unassigned: real): (r: (RiskLevel, real))
    ensures r.0 == HIGH <==> committed > capacity * 1.2
    ensures r.0 == MEDIUM <==> committed <= capacity * 1.2 && (committed > capacity || unassigned > 0.3)
    ensures r.1 == match r.0 case HIGH => 0.9 case MEDIUM => 0.8 case LOW => 0.7
  {
    if committed > capacity * 1.2 then (HIGH, 0.9)
    else if committed > capacity || unassigned > 0.3 then (MEDIUM, 0.8)
    else (LOW, 0.7)
  }

  function Rank(l: RiskLevel): nat {
    match l
    case LOW => 0
    case MEDIUM => 1
    case HIGH => 2
  }

  /** More committed effort or a larger unassigned share never lowers the risk. */
  lemma RiskMonotone(c1: real, c2: real, capacity: real, u1: real, u2: real)
    requires c1 <= c2 && u1 <= u2
    ensures Rank(RiskOf(c1, capacity, u1).0) <= Rank(RiskOf(c2, capacity, u2).0)
    ensures RiskOf(c1, capacity, u1).1 <= RiskOf(c2, capacity, u2).1
  {
  }

  // ---------------------------------------------------------------------------------
  // Stored rows
  // ---------------------------------------------------------------------------------

  datatype Suggestion = Suggestion(
    id: Id,
    storyId: Id,
    taskId: Option<Id>,
    suggestedUserId: Id,
    confidenceScore: real,
    reason: string,
    wasAccepted: bool,
    acceptedById: Option<Id>,
    generatedAt: int)

  datatype RiskPrediction = RiskPrediction(
    id: Id,
    sprintId: Id,
    riskLevel: RiskLevel,
    confidenceScore: real,
    committedEffort: real,
    teamCapacity: real,
    unassignedTasks: nat,
    unassignedPercentage: real,
    historicalVelocity: Option<real>,
    generatedAt: int)

  datatype TrainingData = TrainingData(projectId: Id, sprintId: Id, storyId: Option<Id>, taskId: Option<Id>, dataType: DataType, timestamp: int)

  /** `collectTrainingData`: the row's sprint is the story's sprint, or the project id when
      there is no story or the story has no sprint; an empty task id is stored as null. */
  function TrainingRow(stories: seq<Story>, projectId: Id, storyId: Option<Id>, taskId: Option<Id>, dataType: DataType, now: int): (row: TrainingData)
    ensures row.projectId == projectId && row.storyId == storyId && row.dataType == dataType
    ensures row.taskId.Some? <==> taskId.Some? && taskId.value != ""
    ensures row.sprintId != projectId ==> (storyId.Some? && FindStory(stories, storyId.value).Some?
      && FindStory(stories, storyId.value).value.sprintId == Some(row.sprintId))
  {
    var sprintId :=
      if storyId.Some? && storyId.value != "" then
        var s := FindStory(stories, storyId.value);
        if s.Some? && s.value.sprintId.Some? && s.value.sprintId.value != "" then s.value.sprintId.value else projectId
      else projectId;
    TrainingData(projectId, sprintId, storyId, if taskId.Some? && taskId.value != "" then taskId else None, dataType, now)
  }

  /** The training row of a suggestion for a story. */
  function AssignmentRow(stories: seq<Story>, storyId: Id, taskId: Option<Id>, now: int): (row: TrainingData)
    ensures FindStory(stories, storyId).Some? ==> row == TrainingRow(stories, FindStory(stories, storyId).value.projectId, Some(storyId), taskId, ASSIGNMENT, now)
  {
    var story := FindStory(stories, storyId);
    TrainingRow(stories, if story.Some? then story.value.projectId else "", Some(storyId), taskId, ASSIGNMENT, now)
  }

  /** The risk prediction hands the sprint id to `collectTrainingData` as its story id: for
      a sprint id that is no story's id the row records the project id as its sprint and
      the sprint id as its story. */
  lemma VelocityRowAsWritten(stories: seq<Story>, projectId: Id, sprintId: Id, now: int)
    requires FindStory(stories, sprintId).None? && sprintId != projectId
    ensures var row := TrainingRow(stories, projectId, Some(sprintId), None, VELOCITY, now);
            row.sprintId == projectId && row.storyId == Some(sprintId) && row.sprintId != sprintId
  {
  }

  /** The training row of a risk prediction as intended: the sprint's own id, no story. */
  function VelocityRow(projectId: Id, sprintId: Id, now: int): (row: TrainingData)
    ensures row.sprintId == sprintId && row.storyId.None? && row.taskId.None? && row.dataType == VELOCITY
    ensures row.projectId == projectId
  {
    TrainingData(projectId, sprintId, None, None, VELOCITY, now)
  }

  // ---------------------------------------------------------------------------------
  // Outcomes of the two generators
  // ---------------------------------------------------------------------------------

  /** `generateAssignmentSuggestion`: a missing story is NotFound, then the read-access
      check; no active developer gives no suggestion; otherwise the best-scoring developer
      is suggested with its score as confidence. */
  function AssignmentOutcome(projects: map<Id, Project>, stories: seq<Story>, tasks: seq<Task>, tags: seq<Tag>,
                             storyId: Id, taskId: Option<Id>, userId: Id, newId: Id, now: int): (r: Result<Option<Suggestion>, Failure>)
    ensures FindStory(stories, storyId).None? ==> r.Err? && r.error.NotFound?
    ensures r.Ok? <==> FindStory(stories, storyId).Some? && VerifyAccess(projects, FindStory(stories, storyId).value.projectId, userId).Ok?
    ensures r.Ok? ==> var p := projects[FindStory(stories, storyId).value.projectId];
      (r.value.None? <==> Psp.Developers(p.members) == [])
    ensures r.Ok? && r.value.Some? ==> var s := r.value.value;
      s.id == newId && s.storyId == storyId && s.taskId == taskId && !s.wasAccepted && s.acceptedById.None? && s.generatedAt == now
  {
    var story := FindStory(stories, storyId);
    if story.None? then Err(NotFound("story"))
    else
      var access := VerifyAccess(projects, story.value.projectId, userId);
      if access.Err? then Err(access.error)
      else
        var devs := Psp.Developers(projects[story.value.projectId].members);
        var best := Suggest(tasks, stories, tags, story.value, devs);
        if best.None? then Ok(None)
        else
          Ok(Some(Suggestion(newId, storyId, taskId, best.value.stats.userId, best.value.totalScore,
                             Reason(best.value.stats), false, None, now)))
  }

  /** The suggestion names the developer `Suggest` picks among the project's active
      developers, with that developer's score, in 0..1, as its confidence. */
  lemma SuggestionIsBest(projects: map<Id, Project>, stories: seq<Story>, tasks: seq<Task>, tags: seq<Tag>,
                         storyId: Id, taskId: Option<Id>, userId: Id, newId: Id, now: int)
    requires var r := AssignmentOutcome(projects, stories, tasks, tags, storyId, taskId, userId, newId, now); r.Ok? && r.value.Some?
    ensures var s := AssignmentOutcome(projects, stories, tasks, tags, storyId, taskId, userId, newId, now).value.value;
      var story := FindStory(stories, storyId).value;
      var devs := Psp.Developers(projects[story.projectId].members);
      var best := Suggest(tasks, stories, tags, story, devs);
      best.Some? && s.suggestedUserId == best.value.stats.userId && s.confidenceScore == best.value.totalScore
      && Unit(s.confidenceScore) && (exists m :: m in devs && m.isActive && m.role == DEVELOPER && m.userId == s.suggestedUserId)
  {
    var story := FindStory(stories, storyId).value;
    var devs := Psp.Developers(projects[story.projectId].members);
    var best := Suggest(tasks, stories, tags, story, devs);
    var i :| 0 <= i < |devs| && best.value.stats.userId == devs[i].userId;
    assert devs[i] in devs;
  }

  /** `generateRiskPrediction`: a missing sprint is NotFound, then the read-access check;
      the prediction applies the rule to the sprint's committed effort, its capacity and its
      unassigned share. */
  function RiskOutcome(projects: map<Id, Project>, sprints: seq<Sprint>, stories: seq<Story>, tasks: seq<Task>,
                       sprintId: Id, userId: Id, newId: Id, now: int): (r: Result<RiskPrediction, Failure>)
    ensures SprintById(sprints, sprintId).None? ==> r.Err? && r.error.NotFound?
    ensures r.Ok? <==> SprintById(sprints, sprintId).Some? && VerifyAccess(projects, SprintById(sprints, sprintId).value.projectId, userId).Ok?
    ensures r.Ok? ==> var sprint := SprintById(sprints, sprintId).value;
      var all := AllTasks(SprintStories(stories, sprintId), tasks);
      r.value.id == newId && r.value.sprintId == sprintId
      && r.value.committedEffort == TotalEffort(all)
      && r.value.teamCapacity == TeamCapacity(sprint.capacity, |ActiveMembers(projects[sprint.projectId].members)|)
      && r.value.unassignedTasks == Count(all, Unassigned) && Unit(r.value.unassignedPercentage)
      && (r.value.riskLevel, r.value.confidenceScore) == RiskOf(r.value.committedEffort, r.value.teamCapacity, r.value.unassignedPercentage)
      && r.value.historicalVelocity == HistoricalVelocity(sprints, sprint.projectId)
  {
    var sprint := SprintById(sprints, sprintId);
    if sprint.None? then Err(NotFound("sprint"))
    else
      var access := VerifyAccess(projects, sprint.value.projectId, userId);
      if access.Err? then Err(access.error)
      else
        var all := AllTasks(SprintStories(stories, sprintId), tasks);
        var committed := TotalEffort(all);
        var capacity := TeamCapacity(sprint.value.capacity, |ActiveMembers(projects[sprint.value.projectId].members)|);
        var share := UnassignedShare(all);
        var risk := RiskOf(committed, capacity, share);
        Ok(RiskPrediction(newId, sprintId, risk.0, risk.1, committed, capacity, Count(all, Unassigned), share,
                          HistoricalVelocity(sprints, sprint.value.projectId), now))
  }

  /** A story's suggestions, newest first (rows are stored in generation order). */
  function SuggestionsOf(rows: seq<Suggestion>, storyId: Id): (r: seq<Suggestion>)
    ensures forall s :: s in r <==> s in rows && s.storyId == storyId
    ensures |r| <= |rows|
  {
    if rows == [] then []
    else SuggestionsOf(rows[1..], storyId) + (if rows[0].storyId == storyId then [rows[0]] else [])
  }

  /** A sprint's risk predictions, newest first. */
  function PredictionsOf(rows: seq<RiskPrediction>, sprintId: Id): (r: seq<RiskPrediction>)
    ensures forall p :: p in r <==> p in rows && p.sprintId == sprintId
  {
    if rows == [] then []
    else PredictionsOf(rows[1..], sprintId) + (if rows[0].sprintId == sprintId then [rows[0]] else [])
  }

  /** The newest suggestion comes first in the listing. */
  lemma {:induction false} NewestSuggestionFirst(rows: seq<Suggestion>, s: Suggestion)
    ensures |SuggestionsOf(rows + [s], s.storyId)| > 0 && SuggestionsOf(rows + [s], s.storyId)[0] == s
  {
    if rows == [] {
      assert (rows + [s])[1..] == [];
    } else {
      assert (rows + [s])[1..] == rows[1..] + [s];
      NewestSuggestionFirst(rows[1..], s);
    }
  }

  predicate UniqueIds(rows: seq<Suggestion>) {
    forall i, j :: 0 <= i < j < |rows| ==> rows[i].id != rows[j].id
  }

  /** `findUnique` of a suggestion by id. */
  function FindSuggestion(rows: seq<Suggestion>, id: Id): (r: Option<Suggestion>)
    ensures r.Some? <==> exists i :: 0 <= i < |rows| && rows[i].id == id
    ensures r.Some? ==> r.value in rows && r.value.id == id
  {
    if rows == [] then None
    else if rows[0].id == id then Some(rows[0])
    else FindSuggestion(rows[1..], id)
  }

  /** A row with a fresh id keeps the ids unique. */
  lemma AppendFresh(rows: seq<Suggestion>, s: Suggestion)
    requires UniqueIds(rows) && forall i :: 0 <= i < |rows| ==> rows[i].id != s.id
    ensures UniqueIds(rows + [s])
  {
  }

  class MlPredictionsService {
    // The tables this service only reads.
    const projects: map<Id, Project>
    const sprints: seq<Sprint>
    const stories: seq<Story>
    const tasks: seq<Task>
    const tags: seq<Tag>
    // The tables it writes.
    var suggestions: seq<Suggestion>
    var predictions: seq<RiskPrediction>
    var training: seq<TrainingData>

    /** Suggestion ids are unique. */
    predicate Valid()
      reads this
    {
      UniqueIds(suggestions)
    }

    constructor(projects0: map<Id, Project>, sprints0: seq<Sprint>, stories0: seq<Story>, tasks0: seq<Task>, tags0: seq<Tag>)
      ensures Valid() && projects == projects0 && sprints == sprints0 && stories == stories0 && tasks == tasks0 && tags == tags0
      ensures suggestions == [] && predictions == [] && training == []
    {
      projects, sprints, stories, tasks, tags := projects0, sprints0, stories0, tasks0, tags0;
      suggestions, predictions, training := [], [], [];
      new;
    }

    /** Generates and stores a suggestion with its training row; `newId` is the id the new
        row gets. */
    method GenerateAssignmentSuggestion(storyId: Id, taskId: Option<Id>, userId: Id, newId: Id, now: int) returns (r: Result<Option<Suggestion>, Failure>)
      requires Valid() && forall i :: 0 <= i < |suggestions| ==> suggestions[i].id != newId
      modifies this
      ensures Valid()
      ensures r == AssignmentOutcome(projects, stories, tasks, tags, storyId, taskId, userId, newId, now)
      ensures predictions == old(predictions)
      ensures r.Ok? && r.value.Some? ==> (suggestions == old(suggestions) + [r.value.value]
        && training == old(training) + [AssignmentRow(stories, storyId, taskId, now)])
      ensures !(r.Ok? && r.value.Some?) ==> suggestions == old(suggestions) && training == old(training)
    {
      r := AssignmentOutcome(projects, stories, tasks, tags, storyId, taskId, userId, newId, now);
      if r.Ok? && r.value.Some? {
        RecordSuggestion(r.value.value, AssignmentRow(stories, storyId, taskId, now));
      }
    }

    /** Stores a suggestion whose id is fresh, with its training row. */
    method RecordSuggestion(s: Suggestion, row: TrainingData)
      requires Valid() && forall i :: 0 <= i < |suggestions| ==> suggestions[i].id != s.id
      modifies this
      ensures Valid()
      ensures suggestions == old(suggestions) + [s] && training == old(training) + [row]
      ensures predictions == old(predictions)
    {
      AppendFresh(suggestions, s);
      suggestions := suggestions + [s];
      training := training + [row];
    }

    /** Generates and stores a risk prediction with its training row (recorded under the
        sprint, see `VelocityRow`). */
    method GenerateRiskPrediction(sprintId: Id, userId: Id, newId: Id, now: int) returns (r: Result<RiskPrediction, Failure>)
      requires Valid()
      modifies this
      ensures Valid()
      ensures r == RiskOutcome(projects, sprints, stories, tasks, sprintId, userId, newId, now)
      ensures suggestions == old(suggestions)
      ensures r.Ok? ==> (predictions == old(predictions) + [r.value]
        && training == old(training) + [VelocityRow(SprintById(sprints, sprintId).value.projectId, sprintId, now)])
      ensures r.Err? ==> predictions == old(predictions) && training == old(training)
    {
      r := RiskOutcome(projects, sprints, stories, tasks, sprintId, userId, newId, now);
      if r.Ok? {
        predictions := predictions + [r.value];
        training := training + [VelocityRow(SprintById(sprints, sprintId).value.projectId, sprintId, now)];
      }
    }

    /** `getStorySuggestions`: the story's suggestions, newest first, to anyone with read
        access. */
    method GetStorySuggestions(storyId: Id, userId: Id) returns (r: Result<seq<Suggestion>, Failure>)
      ensures r.Ok? <==> FindStory(stories, storyId).Some? && VerifyAccess(projects, FindStory(stories, storyId).value.projectId, userId).Ok?
      ensures r.Ok? ==> forall s :: s in r.value <==> s in suggestions && s.storyId == storyId
      ensures r.Ok? ==> r.value == SuggestionsOf(suggestions, storyId)
    {
      var story := FindStory(stories, storyId);
      if story.None? {
        return Err(NotFound("story"));
      }
      var access := VerifyAccess(projects, story.value.projectId, userId);
      if access.Err? {
        return Err(access.error);
      }
      r := Ok(SuggestionsOf(suggestions, storyId));
    }

    /** `getSprintRiskPredictions`: at most the ten newest predictions of the sprint. */
    method GetSprintRiskPredictions(sprintId: Id, userId: Id) returns (r: Result<seq<RiskPrediction>, Failure>)
      ensures r.Ok? <==> SprintById(sprints, sprintId).Some? && VerifyAccess(projects, SprintById(sprints, sprintId).value.projectId, userId).Ok?
      ensures r.Ok? ==> |r.value| <= 10 && forall p :: p in r.value ==> p in predictions && p.sprintId == sprintId
      ensures r.Ok? ==> r.value == (var all := PredictionsOf(predictions, sprintId); if |all| <= 10 then all else all[..10])
    {
      var sprint := SprintById(sprints, sprintId);
      if sprint.None? {
        return Err(NotFound("sprint"));
      }
      var access := VerifyAccess(projects, sprint.value.projectId, userId);
      if access.Err? {
        return Err(access.error);
      }
      var all := PredictionsOf(predictions, sprintId);
      r := Ok(if |all| <= 10 then all else all[..10]);
    }

    /** `acceptSuggestion`: marks the suggestion accepted by the caller, who needs read
        access to its story's project. */
    method AcceptSuggestion(suggestionId: Id, userId: Id) returns (r: Result<Suggestion, Failure>)
      requires Valid()
      modifies this
      ensures Valid()
      ensures predictions == old(predictions) && training == old(training)
      ensures FindSuggestion(old(suggestions), suggestionId).None? ==> r.Err? && r.error.NotFound?
      ensures r.Ok? <==> (FindSuggestion(old(suggestions), suggestionId).Some?
        && FindStory(stories, FindSuggestion(old(suggestions), suggestionId).value.storyId).Some?
        && VerifyAccess(projects, FindStory(stories, FindSuggestion(old(suggestions), suggestionId).value.storyId).value.projectId, userId).Ok?)
      ensures r.Ok? ==> (r.value == FindSuggestion(old(suggestions), suggestionId).value.(wasAccepted := true, acceptedById := Some(userId))
        && |suggestions| == |old(suggestions)|
        && forall i :: 0 <= i < |suggestions| ==> suggestions[i] == if old(suggestions)[i].id == suggestionId then r.value else old(suggestions)[i])
      ensures r.Err? ==> suggestions == old(suggestions)
    {
      var s := FindSuggestion(suggestions, suggestionId);
      if s.None? {
        return Err(NotFound("suggestion"));
      }
      var story := FindStory(stories, s.value.storyId);
      if story.None? {
        return Err(NotFound("story"));
      }
      var access := VerifyAccess(projects, story.value.projectId, userId);
      if access.Err? {
        return Err(access.error);
      }
      var updated := s.value.(wasAccepted := true, acceptedById := Some(userId));
      suggestions := seq(|suggestions|, i requires 0 <= i < |suggestions| reads this => if suggestions[i].id == suggestionId then updated else suggestions[i]);
      r := Ok(updated);
    }
  }
}
