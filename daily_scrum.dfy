/** The daily scrum of a sprint: one entry per (sprint, member, day) holding the three
    answers, optionally linked to stories of the sprint. Members record and correct only
    today's entry; the Scrum Master reads a consolidated view of a day and the history
    grouped by day. Times are milliseconds; "today" is the start of the day holding `now`. */
module DailyScrum {
  import opened Wrappers
  import opened Scrum
  import opened Backlog
  import Collections
  import SprintMetrics
  import Burndown

  /** A row of the daily-scrum table. */
  datatype Daily = Daily(
    id: Id,
    sprintId: Id,
    userId: Id,
    date: int,
    whatDidYesterday: string,
    whatWillDoToday: string,
    impediments: Option<string>,
    createdAt: int)

  /** A row of the daily-to-story link table. */
  datatype DailyLink = DailyLink(dailyId: Id, storyId: Id)

  /** The body of `createOrUpdateDailyScrum`; `date` is the parsed `YYYY-MM-DD` value. */
  datatype CreateDailyDto = CreateDailyDto(
    sprintId: Id,
    date: int,
    whatDidYesterday: string,
    whatWillDoToday: string,
    impediments: Option<string>,
    storyIds: Option<seq<Id>>)

  /** The body of `updateDailyScrum`; an absent field is left as it is. */
  datatype UpdateDailyDto = UpdateDailyDto(
    whatDidYesterday: Option<string>,
    whatWillDoToday: Option<string>,
    impediments: Option<string>,
    storyIds: Option<seq<Id>>)

  /** What `getDailyScrumById` answers: the row and the ids of its linked stories. */
  datatype DailyView = DailyView(daily: Daily, storyIds: seq<Id>)

  /** One reported impediment (the author's display name is not modelled). */
  datatype Impediment = Impediment(userId: Id, impediment: string)

  /** `getConsolidatedDaily`; `date` is None when the query carries no date. */
  datatype Consolidated = Consolidated(
    date: Option<int>,
    sprintId: Id,
    sprintName: string,
    sprintNumber: int,
    entries: seq<Daily>,
    impediments: seq<Impediment>)

  /** One day of `getDailyHistory`; `day` is the UTC calendar day (days since the epoch). */
  datatype DayReport = DayReport(
    day: int,
    sprintId: Id,
    sprintName: string,
    sprintNumber: int,
    entries: seq<Daily>,
    impediments: seq<Impediment>)

  // ---------------------------------------------------------------------------------
  // Table invariants

  /** The database key `sprintId_userId_date`. */
  function Key(d: Daily): (Id, Id, int) {
    (d.sprintId, d.userId, d.date)
  }

  predicate ValidDailies(rows: seq<Daily>) {
    (forall i, j :: 0 <= i < j < |rows| ==> rows[i].id != rows[j].id)
    && (forall i, j :: 0 <= i < j < |rows| ==> Key(rows[i]) != Key(rows[j]))
  }

  predicate DailyIdUsed(rows: seq<Daily>, id: Id) {
    exists k :: 0 <= k < |rows| && rows[k].id == id
  }

  // ---------------------------------------------------------------------------------
  // Guards

  /** The checks `createOrUpdateDailyScrum` makes before it looks at the table: sprint
      access, then team membership, then the date lies within the sprint. */
  function RecordCheck(projects: map<Id, Project>, sprints: seq<Sprint>, dto: CreateDailyDto, userId: Id): (r: Result<Sprint, Failure>)
    ensures r.Ok? <==> (SprintById(sprints, dto.sprintId).Some?
      && var s := SprintById(sprints, dto.sprintId).value;
      s.projectId in projects && IsOwnerOrMember(projects[s.projectId], userId)
      && s.startDate <= dto.date <= s.endDate)
    ensures r.Ok? ==> r.value == SprintById(sprints, dto.sprintId).value
    ensures (SprintById(sprints, dto.sprintId).Some?
      && var s := SprintById(sprints, dto.sprintId).value;
      s.projectId in projects && !IsOwnerOrMember(projects[s.projectId], userId)) ==> r.Err? && r.error.Forbidden?
    ensures (SprintById(sprints, dto.sprintId).Some?
      && var s := SprintById(sprints, dto.sprintId).value;
      s.projectId in projects && IsOwnerOrMember(projects[s.projectId], userId)
      && (dto.date < s.startDate || dto.date > s.endDate)) ==> r.Err? && r.error.BadRequest?
  {
    var access := SprintAccess(projects, sprints, dto.sprintId, userId);
    if access.Err? then Err(access.error)
    else
      var sprint := access.value;
      var role := ActiveRole(projects[sprint.projectId], userId);
      if role.None? && projects[sprint.projectId].ownerId != userId then
        Err(Forbidden("only team members may record a daily scrum"))
      else if dto.date < sprint.startDate || dto.date > sprint.endDate then
        Err(BadRequest("the date must lie within the sprint"))
      else Ok(sprint)
  }

  /** `findUnique({ where: { sprintId_userId_date } })`. */
  function FindDaily(rows: seq<Daily>, sprintId: Id, userId: Id, date: int): (r: Option<Daily>)
    ensures r.Some? <==> exists k :: 0 <= k < |rows| && Key(rows[k]) == (sprintId, userId, date)
    ensures r.Some? ==> r.value in rows && Key(r.value) == (sprintId, userId, date)
  {
    if rows == [] then None
    else if Key(rows[0]) == (sprintId, userId, date) then Some(rows[0])
    else
      assert forall k :: 1 <= k < |rows| ==> rows[k] == rows[1..][k - 1];
      FindDaily(rows[1..], sprintId, userId, date)
  }

  /** `findUnique({ where: { id } })`. */
  function DailyById(rows: seq<Daily>, id: Id): (r: Option<Daily>)
    ensures r.Some? <==> DailyIdUsed(rows, id)
    ensures r.Some? ==> r.value in rows && r.value.id == id
  {
    if rows == [] then None
    else if rows[0].id == id then Some(rows[0])
    else
      assert forall k :: 1 <= k < |rows| ==> rows[k] == rows[1..][k - 1];
      DailyById(rows[1..], id)
  }

  /** The update branch of the upsert: the answers are replaced; an absent impediment leaves
      the stored one (Prisma skips undefined fields). */
  function Overwritten(d: Daily, dto: CreateDailyDto): Daily {
    d.(whatDidYesterday := dto.whatDidYesterday, whatWillDoToday := dto.whatWillDoToday,
       impediments := if dto.impediments.Some? then dto.impediments else d.impediments)
  }

  /** The create branch of the upsert. The date has been moved to the start of its day by then. */
  function NewDaily(id: Id, dto: CreateDailyDto, userId: Id, now: int): (d: Daily)
    ensures d.id == id && d.sprintId == dto.sprintId && d.userId == userId
    ensures d.date % SprintMetrics.DayMs == 0 && d.date <= dto.date < d.date + SprintMetrics.DayMs
    ensures d.whatDidYesterday == dto.whatDidYesterday && d.whatWillDoToday == dto.whatWillDoToday
      && d.impediments == dto.impediments
  {
    Daily(id, dto.sprintId, userId, Burndown.Midnight(dto.date), dto.whatDidYesterday,
      dto.whatWillDoToday, dto.impediments, now)
  }

  /** The row can take its place in the table: either it rewrites the row with its id and
      key, or both its id and its key are new. */
  predicate Fits(rows: seq<Daily>, row: Daily) {
    (exists k :: 0 <= k < |rows| && rows[k].id == row.id && Key(rows[k]) == Key(row))
    || (!DailyIdUsed(rows, row.id) && forall k :: 0 <= k < |rows| ==> Key(rows[k]) != Key(row))
  }

  /** The row `createOrUpdateDailyScrum` writes, or why it refuses. An entry that already
      exists may be rewritten only on its own day; a new entry whose day-start key is taken
      fails on the table's unique key. */
  function UpsertCheck(rows: seq<Daily>, dto: CreateDailyDto, userId: Id, now: int, id: Id): (r: Result<Daily, Failure>)
    ensures FindDaily(rows, dto.sprintId, userId, dto.date).Some? ==>
      (r.Ok? <==> Burndown.Midnight(dto.date) == Burndown.Midnight(now))
      && (r.Err? ==> r.error.BadRequest?)
      && (r.Ok? ==> r.value.id == FindDaily(rows, dto.sprintId, userId, dto.date).value.id)
    ensures FindDaily(rows, dto.sprintId, userId, dto.date).None? ==>
      (r.Ok? <==> FindDaily(rows, dto.sprintId, userId, Burndown.Midnight(dto.date)).None?)
      && (r.Err? ==> r.error.Conflict?)
      && (r.Ok? ==> r.value.id == id && r.value.createdAt == now && r.value.impediments == dto.impediments)
    ensures r.Ok? ==> (r.value.sprintId == dto.sprintId && r.value.userId == userId
      && r.value.whatDidYesterday == dto.whatDidYesterday && r.value.whatWillDoToday == dto.whatWillDoToday
      && (dto.impediments.Some? ==> r.value.impediments == dto.impediments))
    ensures r.Ok? && !DailyIdUsed(rows, id) && ValidDailies(rows) ==> Fits(rows, r.value)
  {
    var existing := FindDaily(rows, dto.sprintId, userId, dto.date);
    if existing.Some? then
      if Burndown.Midnight(dto.date) != Burndown.Midnight(now) then
        Err(BadRequest("only today's daily scrum can be edited"))
      else Ok(Overwritten(existing.value, dto))
    else if FindDaily(rows, dto.sprintId, userId, Burndown.Midnight(dto.date)).Some? then
      Err(Conflict("unique constraint on (sprintId, userId, date)"))
    else Ok(NewDaily(id, dto, userId, now))
  }

  /** `updateDailyScrum`'s checks: the entry exists, the caller wrote it, and it is today's. */
  function UpdateCheck(rows: seq<Daily>, dailyId: Id, userId: Id, now: int): (r: Result<Daily, Failure>)
    ensures r.Ok? <==> (DailyById(rows, dailyId).Some? && DailyById(rows, dailyId).value.userId == userId
      && Burndown.Midnight(DailyById(rows, dailyId).value.date) == Burndown.Midnight(now))
    ensures r.Ok? ==> r.value == DailyById(rows, dailyId).value
    ensures !DailyIdUsed(rows, dailyId) ==> r.Err? && r.error.NotFound?
    ensures DailyById(rows, dailyId).Some? && DailyById(rows, dailyId).value.userId != userId ==> r.Err? && r.error.Forbidden?
  {
    var daily := DailyById(rows, dailyId);
    if daily.None? then Err(NotFound("daily scrum"))
    else if daily.value.userId != userId then Err(Forbidden("only the author may edit a daily scrum"))
    else if Burndown.Midnight(daily.value.date) != Burndown.Midnight(now) then
      Err(BadRequest("only today's daily scrum can be edited"))
    else Ok(daily.value)
  }

  /** The fields an update writes; the id, sprint, author and date stay. */
  function Edited(d: Daily, dto: UpdateDailyDto): Daily {
    d.(whatDidYesterday := dto.whatDidYesterday.GetOr(d.whatDidYesterday),
       whatWillDoToday := dto.whatWillDoToday.GetOr(d.whatWillDoToday),
       impediments := if dto.impediments.Some? then dto.impediments else d.impediments)
  }

  // ---------------------------------------------------------------------------------
  // Writing the table

  /** The row with that id rewritten. */
  function ReplaceDaily(rows: seq<Daily>, row: Daily): (r: seq<Daily>)
    ensures |r| == |rows|
    ensures forall k :: 0 <= k < |rows| ==> r[k] == if rows[k].id == row.id then row else rows[k]
  {
    seq(|rows|, k requires 0 <= k < |rows| => if rows[k].id == row.id then row else rows[k])
  }

  /** The upsert: update the row with the same id, or append a new one. */
  function Upserted(rows: seq<Daily>, row: Daily): (r: seq<Daily>)
    ensures |r| == |rows| + (if DailyIdUsed(rows, row.id) then 0 else 1)
    ensures row in r
    ensures forall k :: 0 <= k < |rows| && rows[k].id != row.id ==> r[k] == rows[k]
  {
    if DailyIdUsed(rows, row.id) then ReplaceDaily(rows, row) else rows + [row]
  }

  /** An upsert keeps ids and keys unique, stores the row, keeps every other row, and leaves
      that row the only one with its key. */
  lemma UpsertedKeeps(rows: seq<Daily>, row: Daily)
    requires ValidDailies(rows) && Fits(rows, row)
    ensures ValidDailies(Upserted(rows, row))
    ensures row in Upserted(rows, row)
    ensures forall x :: x in rows && x.id != row.id ==> x in Upserted(rows, row)
    ensures forall x :: x in Upserted(rows, row) && Key(x) == Key(row) ==> x == row
    ensures |Upserted(rows, row)| == if DailyIdUsed(rows, row.id) then |rows| else |rows| + 1
  {
    var r := Upserted(rows, row);
    if DailyIdUsed(rows, row.id) {
      var k0 :| 0 <= k0 < |rows| && rows[k0].id == row.id && Key(rows[k0]) == Key(row);
      assert r[k0] == row;
      forall i | 0 <= i < |rows| ensures Key(r[i]) == Key(rows[i]) && r[i].id == rows[i].id {
      }
      forall x | x in r && Key(x) == Key(row) ensures x == row {
        var i :| 0 <= i < |r| && r[i] == x;
        assert Key(rows[i]) == Key(rows[k0]);
      }
      forall x | x in rows && x.id != row.id ensures x in r {
        var i :| 0 <= i < |rows| && rows[i] == x;
        assert r[i] == x;
      }
    } else {
      assert r[|rows|] == row;
      forall x | x in r && Key(x) == Key(row) ensures x == row {
        var i :| 0 <= i < |r| && r[i] == x;
        assert i == |rows|;
      }
    }
  }

  // ---------------------------------------------------------------------------------
  // Story links

  /** The story ids linked to a daily, in table order. */
  function LinkedStories(links: seq<DailyLink>, dailyId: Id): (r: seq<Id>)
    ensures forall s :: s in r <==> DailyLink(dailyId, s) in links
    ensures |r| <= |links|
  {
    if links == [] then []
    else
      var init := links[..|links| - 1];
      var last := links[|links| - 1];
      assert links == init + [last];
      LinkedStories(init, dailyId) + (if last.dailyId == dailyId then [last.storyId] else [])
  }

  /** `deleteMany({ where: { dailyScrumId } })`. */
  function DropLinks(links: seq<DailyLink>, dailyId: Id): (r: seq<DailyLink>)
    ensures forall x :: x in r <==> x in links && x.dailyId != dailyId
  {
    if links == [] then []
    else
      var init := links[..|links| - 1];
      var last := links[|links| - 1];
      assert links == init + [last];
      DropLinks(init, dailyId) + (if last.dailyId != dailyId then [last] else [])
  }

  /** `createMany` of one link per requested story, in request order. */
  function NewLinks(dailyId: Id, storyIds: seq<Id>): (r: seq<DailyLink>)
    ensures |r| == |storyIds|
    ensures forall k :: 0 <= k < |r| ==> r[k] == DailyLink(dailyId, storyIds[k])
  {
    seq(|storyIds|, k requires 0 <= k < |storyIds| => DailyLink(dailyId, storyIds[k]))
  }

  /** The delete-then-create replacement of a daily's links. */
  function Relinked(links: seq<DailyLink>, dailyId: Id, storyIds: seq<Id>): seq<DailyLink> {
    DropLinks(links, dailyId) + NewLinks(dailyId, storyIds)
  }

  lemma {:induction false} LinkedStoriesAppend(a: seq<DailyLink>, b: seq<DailyLink>, dailyId: Id)
    ensures LinkedStories(a + b, dailyId) == LinkedStories(a, dailyId) + LinkedStories(b, dailyId)
  {
    if b != [] {
      var init := b[..|b| - 1];
      assert (a + b)[..|a + b| - 1] == a + init;
      assert (a + b)[|a + b| - 1] == b[|b| - 1];
      LinkedStoriesAppend(a, init, dailyId);
    } else {
      assert a + b == a;
    }
  }

  lemma {:induction false} DroppedStories(links: seq<DailyLink>, dailyId: Id, other: Id)
    ensures LinkedStories(DropLinks(links, dailyId), dailyId) == []
    ensures other != dailyId ==> LinkedStories(DropLinks(links, dailyId), other) == LinkedStories(links, other)
  {
    if links != [] {
      var init := links[..|links| - 1];
      var last := links[|links| - 1];
      DroppedStories(init, dailyId, other);
      var tail := if last.dailyId != dailyId then [last] else [];
      LinkedStoriesAppend(DropLinks(init, dailyId), tail, dailyId);
      LinkedStoriesAppend(DropLinks(init, dailyId), tail, other);
      assert LinkedStories([], dailyId) == [] && LinkedStories([], other) == [];
      if last.dailyId != dailyId {
        assert [last][..0] == [];
      }
    }
  }

  lemma {:induction false} NewLinkStories(dailyId: Id, storyIds: seq<Id>, other: Id)
    ensures LinkedStories(NewLinks(dailyId, storyIds), dailyId) == storyIds
    ensures other != dailyId ==> LinkedStories(NewLinks(dailyId, storyIds), other) == []
  {
    if storyIds != [] {
      var init := storyIds[..|storyIds| - 1];
      var links := NewLinks(dailyId, storyIds);
      NewLinkStories(dailyId, init, other);
      var last := storyIds[|storyIds| - 1];
      assert links[..|storyIds| - 1] == NewLinks(dailyId, init);
      assert links[|storyIds| - 1] == DailyLink(dailyId, last);
      assert LinkedStories(links, dailyId) == LinkedStories(NewLinks(dailyId, init), dailyId) + [last];
      assert storyIds == init + [last];
    }
  }

  /** After the replacement the daily is linked to exactly the requested stories, in request
      order, and every other daily keeps its links. */
  lemma RelinkedStories(links: seq<DailyLink>, dailyId: Id, storyIds: seq<Id>, other: Id)
    ensures LinkedStories(Relinked(links, dailyId, storyIds), dailyId) == storyIds
    ensures other != dailyId ==> LinkedStories(Relinked(links, dailyId, storyIds), other) == LinkedStories(links, other)
  {
    RelinkedOwn(links, dailyId, storyIds);
    if other != dailyId {
      RelinkedOther(links, dailyId, storyIds, other);
    }
  }

  lemma RelinkedOwn(links: seq<DailyLink>, dailyId: Id, storyIds: seq<Id>)
    ensures LinkedStories(Relinked(links, dailyId, storyIds), dailyId) == storyIds
  {
    var dropped := DropLinks(links, dailyId);
    var added := NewLinks(dailyId, storyIds);
    LinkedStoriesAppend(dropped, added, dailyId);
    DroppedStories(links, dailyId, dailyId);
    NewLinkStories(dailyId, storyIds, dailyId);
    assert LinkedStories(dropped, dailyId) + storyIds == storyIds;
  }

  lemma RelinkedOther(links: seq<DailyLink>, dailyId: Id, storyIds: seq<Id>, other: Id)
    requires other != dailyId
    ensures LinkedStories(Relinked(links, dailyId, storyIds), other) == LinkedStories(links, other)
  {
    var dropped := DropLinks(links, dailyId);
    var added := NewLinks(dailyId, storyIds);
    LinkedStoriesAppend(dropped, added, other);
    DroppedStories(links, dailyId, other);
    NewLinkStories(dailyId, storyIds, other);
  }

  lemma {:induction false} DropLinksUnique(links: seq<DailyLink>, dailyId: Id)
    requires Collections.NoDuplicates(links)
    ensures Collections.NoDuplicates(DropLinks(links, dailyId))
  {
    if links != [] {
      var init := links[..|links| - 1];
      var last := links[|links| - 1];
      assert Collections.NoDuplicates(init);
      DropLinksUnique(init, dailyId);
      if last.dailyId != dailyId {
        assert last !in init;
        Collections.NoDuplicatesSnoc(DropLinks(init, dailyId), last);
      } else {
        assert DropLinks(init, dailyId) + [] == DropLinks(init, dailyId);
      }
    }
  }

  /** The replacement never duplicates a link when the requested ids are distinct. */
  lemma RelinkedUnique(links: seq<DailyLink>, dailyId: Id, storyIds: seq<Id>)
    requires Collections.NoDuplicates(links) && Collections.NoDuplicates(storyIds)
    ensures Collections.NoDuplicates(Relinked(links, dailyId, storyIds))
  {
    DropLinksUnique(links, dailyId);
    var a := DropLinks(links, dailyId);
    var b := NewLinks(dailyId, storyIds);
    var r := a + b;
    forall i, j | 0 <= i < j < |r| ensures r[i] != r[j] {
      if j < |a| {
      } else if i >= |a| {
        assert r[i] == b[i - |a|] && r[j] == b[j - |a|];
      } else {
        assert r[i] in a && r[j] == b[j - |a|];
      }
    }
  }

  /** `userStory.findMany({ where: { id: { in: storyIds }, sprintId } })`, by id. With unique
      story ids this set has as many elements as the query returns rows. */
  function SprintFoundIds(rows: seq<Story>, sprintId: Id, ids: seq<Id>): (found: set<Id>)
    ensures forall id :: id in found <==> id in ids && exists k :: 0 <= k < |rows| && rows[k].id == id && rows[k].sprintId == Some(sprintId)
  {
    set k, id | 0 <= k < |rows| && id == rows[k].id && id in ids && rows[k].sprintId == Some(sprintId) :: id
  }

  /** The check `stories.length !== storyIds.length`. */
  predicate StoriesAccepted(rows: seq<Story>, sprintId: Id, ids: seq<Id>) {
    |SprintFoundIds(rows, sprintId, ids)| == |ids|
  }

  /** The story check passes exactly when every requested id is a story of the sprint and
      none is requested twice. */
  lemma StoriesAcceptedIff(rows: seq<Story>, sprintId: Id, ids: seq<Id>)
    ensures StoriesAccepted(rows, sprintId, ids) <==>
      Collections.NoDuplicates(ids) && forall id :: id in ids ==> exists k :: 0 <= k < |rows| && rows[k].id == id && rows[k].sprintId == Some(sprintId)
  {
    var found := SprintFoundIds(rows, sprintId, ids);
    var all := set id | id in ids;
    Collections.CardOfSeqSet(ids);
    assert found <= all;
    Collections.SubsetCard(found, all);
    if |found| == |ids| {
      assert |found| == |all|;
      forall id | id in ids ensures exists k :: 0 <= k < |rows| && rows[k].id == id && rows[k].sprintId == Some(sprintId) {
        assert id in all;
      }
    }
    if Collections.NoDuplicates(ids) && forall id :: id in ids ==> exists k :: 0 <= k < |rows| && rows[k].id == id && rows[k].sprintId == Some(sprintId) {
      assert found == all;
    }
  }

  /** An empty request always passes the story check. */
  lemma NothingRequestedAccepted(rows: seq<Story>, sprintId: Id)
    ensures StoriesAccepted(rows, sprintId, [])
  {
    assert SprintFoundIds(rows, sprintId, []) == {};
  }

  /** The story ids of a create request that trigger relinking (`storyIds && storyIds.length > 0`). */
  function Requested(storyIds: Option<seq<Id>>): seq<Id> {
    if storyIds.Some? then storyIds.value else []
  }

  // ---------------------------------------------------------------------------------
  // Reads

  function DailyDate(d: Daily): int { d.date }

  function CreatedAt(d: Daily): int { d.createdAt }

  /** The `where` of `getSprintDailies`: the sprint, then the exact date and the author when
      those filters are given (an empty member id is no filter). */
  predicate Matches(d: Daily, sprintId: Id, date: Option<int>, memberId: Option<Id>) {
    d.sprintId == sprintId
    && (date.Some? ==> d.date == date.value)
    && (memberId.Some? && memberId.value != "" ==> d.userId == memberId.value)
  }

  function Selected(rows: seq<Daily>, sprintId: Id, date: Option<int>, memberId: Option<Id>): (r: seq<Daily>)
    ensures forall x :: x in r <==> x in rows && Matches(x, sprintId, date, memberId)
  {
    if rows == [] then []
    else
      assert rows == [rows[0]] + rows[1..];
      (if Matches(rows[0], sprintId, date, memberId) then [rows[0]] else []) + Selected(rows[1..], sprintId, date, memberId)
  }

  /** `getSprintDailies`: the matching rows, newest day first and, within a day, newest
      entry first. */
  function SprintDailies(rows: seq<Daily>, sprintId: Id, date: Option<int>, memberId: Option<Id>): (r: seq<Daily>)
    ensures forall x :: x in r <==> x in rows && Matches(x, sprintId, date, memberId)
    ensures Collections.SortedDesc(r, DailyDate)
  {
    var chosen := Selected(rows, sprintId, date, memberId);
    var byTime := Collections.SortDesc(chosen, CreatedAt);
    var r := Collections.SortDesc(byTime, DailyDate);
    forall x ensures x in r <==> x in chosen {
      assert x in r <==> x in multiset(r);
      assert x in byTime <==> x in multiset(byTime);
      assert x in chosen <==> x in multiset(chosen);
    }
    r
  }

  /** `d.impediments` as the response carries it (`impediments || undefined`): present and non-empty. */
  predicate HasImpediment(d: Daily) {
    d.impediments.Some? && d.impediments.value != ""
  }

  function ImpedimentOf(d: Daily): Impediment
    requires HasImpediment(d)
  {
    Impediment(d.userId, d.impediments.value)
  }

  /** `filter(d => d.impediments).map(...)`. */
  function Impediments(entries: seq<Daily>): (r: seq<Impediment>)
    ensures |r| <= |entries|
  {
    if entries == [] then []
    else
      var last := entries[|entries| - 1];
      Impediments(entries[..|entries| - 1]) + (if HasImpediment(last) then [ImpedimentOf(last)] else [])
  }

  /** Every entry with an impediment contributes it, and every listed impediment comes from
      such an entry. */
  lemma {:induction false} ImpedimentsExact(entries: seq<Daily>)
    ensures forall d :: d in entries && HasImpediment(d) ==> ImpedimentOf(d) in Impediments(entries)
    ensures forall i :: i in Impediments(entries) ==> exists d :: d in entries && HasImpediment(d) && i == ImpedimentOf(d)
  {
    if entries != [] {
      var init := entries[..|entries| - 1];
      var last := entries[|entries| - 1];
      var rest := Impediments(init);
      var r := Impediments(entries);
      ImpedimentsExact(init);
      assert entries == init + [last];
      assert r == rest + (if HasImpediment(last) then [ImpedimentOf(last)] else []);
      forall i | i in r ensures exists d :: d in entries && HasImpediment(d) && i == ImpedimentOf(d) {
        if i in rest {
          var d :| d in init && HasImpediment(d) && i == ImpedimentOf(d);
          assert d in entries;
        } else {
          assert last in entries && HasImpediment(last) && i == ImpedimentOf(last);
        }
      }
    }
  }

  /** The impediments follow entry order: those of a concatenation are those of each part,
      in turn. */
  lemma {:induction false} ImpedimentsAppend(a: seq<Daily>, b: seq<Daily>)
    ensures Impediments(a + b) == Impediments(a) + Impediments(b)
  {
    if b != [] {
      var init := b[..|b| - 1];
      assert (a + b)[..|a + b| - 1] == a + init;
      assert (a + b)[|a + b| - 1] == b[|b| - 1];
      ImpedimentsAppend(a, init);
    } else {
      assert a + b == a;
    }
  }

  /** The calendar day of `toISOString().split('T')[0]` (UTC), as days since the epoch. */
  function DayKey(d: Daily): int {
    d.date / SprintMetrics.DayMs
  }

  /** `getDailyHistory`'s report for the listed entries of one sprint, one per day in order
      of first appearance; each day carries its own impediments. */
  function History(sprint: Sprint, entries: seq<Daily>): (r: seq<DayReport>)
    ensures |r| == |Collections.GroupBy(entries, DayKey).keys|
    ensures forall i :: 0 <= i < |r| ==> (r[i].day == Collections.GroupBy(entries, DayKey).keys[i]
      && r[i].entries == Collections.Keyed(entries, DayKey, r[i].day) && r[i].entries != []
      && r[i].impediments == Impediments(r[i].entries))
    ensures forall i, j :: 0 <= i < j < |r| ==> r[i].day != r[j].day
    ensures forall k :: 0 <= k < |entries| ==> DayKey(entries[k]) in Collections.GroupBy(entries, DayKey).keys
  {
    var b := Collections.GroupBy(entries, DayKey);
    Collections.GroupByKeys(entries, DayKey);
    assert forall i :: 0 <= i < |b.keys| ==> b.keys[i] in b.byKey && b.byKey[b.keys[i]] != [];
    seq(|b.keys|, i requires 0 <= i < |b.keys| =>
      DayReport(b.keys[i], b.byKey[b.keys[i]][0].sprintId, sprint.name, sprint.number,
        b.byKey[b.keys[i]], Impediments(b.byKey[b.keys[i]])))
  }

  /** Every entry appears in the report of its own day and in no other. */
  lemma HistoryPlacesEachEntry(sprint: Sprint, entries: seq<Daily>, k: nat, i: nat)
    requires k < |entries| && i < |History(sprint, entries)|
    ensures entries[k] in History(sprint, entries)[i].entries <==> History(sprint, entries)[i].day == DayKey(entries[k])
  {
  }

  // ---------------------------------------------------------------------------------
  // The service

  class DailyScrumService {
    const projects: map<Id, Project>
    const sprints: seq<Sprint>
    const stories: seq<Story>
    var dailies: seq<Daily>
    var links: seq<DailyLink>

    predicate Valid()
      reads this
    {
      ValidDailies(dailies) && Collections.NoDuplicates(links)
    }

    constructor(projects0: map<Id, Project>, sprints0: seq<Sprint>, stories0: seq<Story>, dailies0: seq<Daily>, links0: seq<DailyLink>)
      requires ValidDailies(dailies0) && Collections.NoDuplicates(links0)
      ensures Valid()
      ensures projects == projects0 && sprints == sprints0 && stories == stories0
      ensures dailies == dailies0 && links == links0
    {
      projects := projects0;
      sprints := sprints0;
      stories := stories0;
      dailies := dailies0;
      links := links0;
    }

    /** `getDailyScrumById`. */
    method GetDailyScrumById(dailyId: Id, userId: Id) returns (r: Result<DailyView, Failure>)
      ensures !DailyIdUsed(dailies, dailyId) ==> r.Err? && r.error.NotFound?
      ensures r.Ok? <==> (DailyById(dailies, dailyId).Some?
        && SprintAccess(projects, sprints, DailyById(dailies, dailyId).value.sprintId, userId).Ok?)
      ensures r.Ok? ==> r.value == DailyView(DailyById(dailies, dailyId).value, LinkedStories(links, dailyId))
    {
      var daily := DailyById(dailies, dailyId);
      if daily.None? {
        return Err(NotFound("daily scrum"));
      }
      var access := SprintAccess(projects, sprints, daily.value.sprintId, userId);
      if access.Err? {
        return Err(access.error);
      }
      r := Ok(DailyView(daily.value, LinkedStories(links, dailyId)));
    }

    /** `createOrUpdateDailyScrum`; `now` is the clock and `id` the id a new row gets. The
        row is written before the story check, so a refused story list leaves the written
        row in place. */
    method CreateOrUpdateDailyScrum(dto: CreateDailyDto, userId: Id, now: int, id: Id) returns (r: Result<DailyView, Failure>)
      requires Valid() && !DailyIdUsed(dailies, id)
      modifies this
      ensures Valid()
      ensures RecordCheck(projects, sprints, dto, userId).Err? ==>
        r == Err(RecordCheck(projects, sprints, dto, userId).error) && unchanged(this)
      ensures RecordCheck(projects, sprints, dto, userId).Ok? && UpsertCheck(old(dailies), dto, userId, now, id).Err? ==>
        r == Err(UpsertCheck(old(dailies), dto, userId, now, id).error) && unchanged(this)
      ensures RecordCheck(projects, sprints, dto, userId).Ok? && UpsertCheck(old(dailies), dto, userId, now, id).Ok? ==>
        var row := UpsertCheck(old(dailies), dto, userId, now, id).value;
        var ids := Requested(dto.storyIds);
        dailies == Upserted(old(dailies), row)
        && (ids == [] ==> links == old(links) && r == Ok(DailyView(row, LinkedStories(links, row.id))))
        && (ids != [] && !StoriesAccepted(stories, dto.sprintId, ids) ==>
          links == old(links) && r.Err? && r.error.BadRequest?)
        && (ids != [] && StoriesAccepted(stories, dto.sprintId, ids) ==>
          links == Relinked(old(links), row.id, ids) && r == Ok(DailyView(row, ids)))
    {
      var check := RecordCheck(projects, sprints, dto, userId);
      if check.Err? {
        return Err(check.error);
      }
      var up := UpsertCheck(dailies, dto, userId, now, id);
      if up.Err? {
        return Err(up.error);
      }
      var row := up.value;
      UpsertedKeeps(dailies, row);
      dailies := Upserted(dailies, row);
      if dto.storyIds.Some? && |dto.storyIds.value| > 0 {
        var ids := dto.storyIds.value;
        if !StoriesAccepted(stories, dto.sprintId, ids) {
          return Err(BadRequest("some stories were not found in the sprint"));
        }
        StoriesAcceptedIff(stories, dto.sprintId, ids);
        RelinkedUnique(links, row.id, ids);
        RelinkedStories(links, row.id, ids, row.id);
        links := Relinked(links, row.id, ids);
      }
      r := Ok(DailyView(row, LinkedStories(links, row.id)));
    }

    /** `updateDailyScrum`. An absent story list leaves the links alone; a present one,
        possibly empty, replaces them. The row is written before the story check, and the
        answer is read back through the access check, which may still refuse it. */
    method UpdateDailyScrum(dailyId: Id, dto: UpdateDailyDto, userId: Id, now: int) returns (r: Result<DailyView, Failure>)
      requires Valid()
      modifies this
      ensures Valid()
      ensures UpdateCheck(old(dailies), dailyId, userId, now).Err? ==>
        r == Err(UpdateCheck(old(dailies), dailyId, userId, now).error) && unchanged(this)
      ensures UpdateCheck(old(dailies), dailyId, userId, now).Ok? ==>
        var row := Edited(UpdateCheck(old(dailies), dailyId, userId, now).value, dto);
        dailies == Upserted(old(dailies), row)
        && (dto.storyIds.None? ==> links == old(links))
        && (dto.storyIds.Some? && !StoriesAccepted(stories, row.sprintId, dto.storyIds.value) ==>
          links == old(links) && r.Err? && r.error.BadRequest?)
        && (dto.storyIds.Some? && StoriesAccepted(stories, row.sprintId, dto.storyIds.value) ==>
          links == Relinked(old(links), dailyId, dto.storyIds.value))
        && (dto.storyIds.None? || StoriesAccepted(stories, row.sprintId, dto.storyIds.value) ==>
          (r.Ok? <==> SprintAccess(projects, sprints, row.sprintId, userId).Ok?))
        && (r.Ok? ==> r.value == DailyView(row, LinkedStories(links, dailyId)))
        && (r.Ok? && dto.storyIds.Some? ==> r.value.storyIds == dto.storyIds.value)
    {
      var check := UpdateCheck(dailies, dailyId, userId, now);
      if check.Err? {
        return Err(check.error);
      }
      var row := Edited(check.value, dto);
      assert Fits(dailies, row) by {
        var k :| 0 <= k < |dailies| && dailies[k] == check.value;
      }
      UpsertedKeeps(dailies, row);
      dailies := Upserted(dailies, row);
      if dto.storyIds.Some? {
        var ids := dto.storyIds.value;
        if |ids| > 0 {
          if !StoriesAccepted(stories, row.sprintId, ids) {
            return Err(BadRequest("some stories were not found in the sprint"));
          }
          StoriesAcceptedIff(stories, row.sprintId, ids);
          RelinkedUnique(links, dailyId, ids);
          RelinkedStories(links, dailyId, ids, dailyId);
          links := Relinked(links, dailyId, ids);
        } else {
          NothingRequestedAccepted(stories, row.sprintId);
          DropLinksUnique(links, dailyId);
          RelinkedStories(links, dailyId, [], dailyId);
          assert Relinked(links, dailyId, []) == DropLinks(links, dailyId);
          links := DropLinks(links, dailyId);
        }
      }
      var access := SprintAccess(projects, sprints, row.sprintId, userId);
      if access.Err? {
        return Err(access.error);
      }
      r := Ok(DailyView(row, LinkedStories(links, dailyId)));
    }

    /** `getSprintDailies`. */
    method GetSprintDailies(sprintId: Id, userId: Id, date: Option<int>, memberId: Option<Id>) returns (r: Result<seq<Daily>, Failure>)
      ensures r.Ok? <==> SprintAccess(projects, sprints, sprintId, userId).Ok?
      ensures r.Err? ==> r.error == SprintAccess(projects, sprints, sprintId, userId).error
      ensures r.Ok? ==> r.value == SprintDailies(dailies, sprintId, date, memberId)
    {
      var access := SprintAccess(projects, sprints, sprintId, userId);
      if access.Err? {
        return Err(access.error);
      }
      r := Ok(SprintDailies(dailies, sprintId, date, memberId));
    }

    /** `getConsolidatedDaily`: the day's entries of the sprint and the impediments among them. */
    method GetConsolidatedDaily(sprintId: Id, date: Option<int>, userId: Id) returns (r: Result<Consolidated, Failure>)
      ensures r.Ok? <==> SprintAccess(projects, sprints, sprintId, userId).Ok?
      ensures r.Ok? ==> var sprint := SprintAccess(projects, sprints, sprintId, userId).value;
        r.value == Consolidated(date, sprintId, sprint.name, sprint.number,
          SprintDailies(dailies, sprintId, date, None), Impediments(SprintDailies(dailies, sprintId, date, None)))
    {
      var access := SprintAccess(projects, sprints, sprintId, userId);
      if access.Err? {
        return Err(access.error);
      }
      var entries := GetSprintDailies(sprintId, userId, date, None);
      r := Ok(Consolidated(date, access.value.id, access.value.name, access.value.number,
        entries.value, Impediments(entries.value)));
    }

    /** `getDailyHistory`: the sprint's entries grouped by day. */
    method GetDailyHistory(sprintId: Id, userId: Id) returns (r: Result<seq<DayReport>, Failure>)
      ensures r.Ok? <==> SprintAccess(projects, sprints, sprintId, userId).Ok?
      ensures r.Ok? ==> r.value == History(SprintAccess(projects, sprints, sprintId, userId).value,
        SprintDailies(dailies, sprintId, None, None))
    {
      var access := SprintAccess(projects, sprints, sprintId, userId);
      if access.Err? {
        return Err(access.error);
      }
      var entries := GetSprintDailies(sprintId, userId, None, None);
      r := Ok(History(access.value, entries.value));
    }
  }
}
