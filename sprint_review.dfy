/** The Sprint Review of a sprint: at most one per sprint, recorded and amended by the
    managers (the owner, a SCRUM_MASTER or a PRODUCT_OWNER) once the sprint is under way or
    over. Dates are integer timestamps. */
module SprintReview {
  import opened Wrappers
  import opened Scrum
  import opened Backlog

  /** A row of the sprint-review table. */
  datatype Review = Review(
    id: Id,
    sprintId: Id,
    date: int,
    participants: string,
    summary: string,
    feedbackGeneral: Option<string>,
    createdById: Id)

  /** The body of `createSprintReview`; `date` is the parsed date string. */
  datatype CreateReviewDto = CreateReviewDto(date: int, participants: string, summary: string, feedbackGeneral: Option<string>)

  /** The body of `updateSprintReview`; an absent field is left as it is. */
  datatype UpdateReviewDto = UpdateReviewDto(date: Option<int>, participants: Option<string>, summary: Option<string>, feedbackGeneral: Option<string>)

  // ---------------------------------------------------------------------------------
  // Table invariants

  /** Ids are unique, and `sprintId` is a unique key: a sprint has at most one review. */
  predicate ValidReviews(rows: seq<Review>) {
    (forall i, j :: 0 <= i < j < |rows| ==> rows[i].id != rows[j].id)
    && (forall i, j :: 0 <= i < j < |rows| ==> rows[i].sprintId != rows[j].sprintId)
  }

  predicate ReviewIdUsed(rows: seq<Review>, id: Id) {
    exists k :: 0 <= k < |rows| && rows[k].id == id
  }

  /** `sprintReview.findUnique({ where: { sprintId } })`. */
  function ReviewOf(rows: seq<Review>, sprintId: Id): (r: Option<Review>)
    ensures r.Some? <==> exists k :: 0 <= k < |rows| && rows[k].sprintId == sprintId
    ensures r.Some? ==> r.value in rows && r.value.sprintId == sprintId
  {
    if rows == [] then None
    else if rows[0].sprintId == sprintId then Some(rows[0])
    else ReviewOf(rows[1..], sprintId)
  }

  // ---------------------------------------------------------------------------------
  // Guards

  /** The access check followed by the manager rule, shared by create and update. */
  function ManagerCheck(projects: map<Id, Project>, sprints: seq<Sprint>, sprintId: Id, userId: Id): (r: Result<Sprint, Failure>)
    ensures r.Ok? <==> (SprintAccess(projects, sprints, sprintId, userId).Ok?
      && IsManager(projects[SprintAccess(projects, sprints, sprintId, userId).value.projectId], userId))
    ensures SprintAccess(projects, sprints, sprintId, userId).Err? ==> r == SprintAccess(projects, sprints, sprintId, userId)
    ensures SprintAccess(projects, sprints, sprintId, userId).Ok? && r.Err? ==> r.error.Forbidden?
    ensures r.Ok? ==> r == SprintAccess(projects, sprints, sprintId, userId)
  {
    var access := SprintAccess(projects, sprints, sprintId, userId);
    if access.Err? then access
    else
      var p := projects[access.value.projectId];
      var role := ActiveRole(p, userId);
      if role != Some(SCRUM_MASTER) && role != Some(PRODUCT_OWNER) && p.ownerId != userId then
        Err(Forbidden("only the Scrum Master or the Product Owner may record the review"))
      else access
  }

  /** The checks of `createSprintReview`, in order: access, manager rule, sprint status, then
      no review for the sprint yet. */
  function CreateCheck(projects: map<Id, Project>, sprints: seq<Sprint>, rows: seq<Review>, sprintId: Id, userId: Id): (r: Option<Failure>)
    ensures r.None? <==> (ManagerCheck(projects, sprints, sprintId, userId).Ok?
      && ManagerCheck(projects, sprints, sprintId, userId).value.status in {SprintStatus.IN_PROGRESS, SprintStatus.COMPLETED}
      && ReviewOf(rows, sprintId).None?)
    ensures ManagerCheck(projects, sprints, sprintId, userId).Err? ==> r == Some(ManagerCheck(projects, sprints, sprintId, userId).error)
    ensures ManagerCheck(projects, sprints, sprintId, userId).Ok? && r.Some? ==> r.value.BadRequest?
  {
    var check := ManagerCheck(projects, sprints, sprintId, userId);
    if check.Err? then Some(check.error)
    else if check.value.status != SprintStatus.COMPLETED && check.value.status != SprintStatus.IN_PROGRESS then
      Some(BadRequest("a review needs a sprint in progress or completed"))
    else if ReviewOf(rows, sprintId).Some? then Some(BadRequest("the sprint already has a review"))
    else None
  }

  function NewReview(id: Id, sprintId: Id, dto: CreateReviewDto, userId: Id): Review {
    Review(id, sprintId, dto.date, dto.participants, dto.summary, dto.feedbackGeneral, userId)
  }

  /** `update({ data: { ...updateDto } })`: each field the body carries replaces the stored one. */
  function Edited(r: Review, dto: UpdateReviewDto): Review {
    r.(date := dto.date.GetOr(r.date),
       participants := dto.participants.GetOr(r.participants),
       summary := dto.summary.GetOr(r.summary),
       feedbackGeneral := if dto.feedbackGeneral.Some? then dto.feedbackGeneral else r.feedbackGeneral)
  }

  /** An update never moves the review to another sprint or changes its author, and an
      empty body changes nothing. */
  lemma EditedKeepsIdentity(r: Review, dto: UpdateReviewDto)
    ensures Edited(r, dto).id == r.id && Edited(r, dto).sprintId == r.sprintId && Edited(r, dto).createdById == r.createdById
    ensures dto == UpdateReviewDto(None, None, None, None) ==> Edited(r, dto) == r
  {
  }

  /** Applying the same body twice is the same as applying it once. */
  lemma EditedIdempotent(r: Review, dto: UpdateReviewDto)
    ensures Edited(Edited(r, dto), dto) == Edited(r, dto)
  {
  }

  /** The row replaced by its edited version. */
  function ReplaceReview(rows: seq<Review>, sprintId: Id, dto: UpdateReviewDto): (r: seq<Review>)
    ensures |r| == |rows|
    ensures forall k :: 0 <= k < |rows| ==> r[k] == if rows[k].sprintId == sprintId then Edited(rows[k], dto) else rows[k]
  {
    seq(|rows|, k requires 0 <= k < |rows| => if rows[k].sprintId == sprintId then Edited(rows[k], dto) else rows[k])
  }

  /** An accepted creation keeps the table valid, so the sprint then has exactly one review. */
  lemma CreatedKeeps(rows: seq<Review>, row: Review)
    requires ValidReviews(rows) && !ReviewIdUsed(rows, row.id) && ReviewOf(rows, row.sprintId).None?
    ensures ValidReviews(rows + [row])
    ensures ReviewOf(rows + [row], row.sprintId) == Some(row)
  {
    ReviewOfPrefix(rows, row);
  }

  lemma {:induction false} ReviewOfPrefix(rows: seq<Review>, row: Review)
    requires ReviewOf(rows, row.sprintId).None?
    ensures ReviewOf(rows + [row], row.sprintId) == Some(row)
  {
    if rows != [] {
      assert (rows + [row])[1..] == rows[1..] + [row];
      ReviewOfPrefix(rows[1..], row);
    }
  }

  /** An update keeps the table valid. */
  lemma ReplaceKeeps(rows: seq<Review>, sprintId: Id, dto: UpdateReviewDto)
    requires ValidReviews(rows)
    ensures ValidReviews(ReplaceReview(rows, sprintId, dto))
  {
    var r := ReplaceReview(rows, sprintId, dto);
    assert forall k :: 0 <= k < |rows| ==> r[k].id == rows[k].id && r[k].sprintId == rows[k].sprintId;
  }

  // ---------------------------------------------------------------------------------
  // The service

  class SprintReviewService {
    const projects: map<Id, Project>
    const sprints: seq<Sprint>
    var reviews: seq<Review>

    predicate Valid()
      reads this
    {
      ValidReviews(reviews)
    }

    constructor(projects0: map<Id, Project>, sprints0: seq<Sprint>, reviews0: seq<Review>)
      requires ValidReviews(reviews0)
      ensures Valid() && projects == projects0 && sprints == sprints0 && reviews == reviews0
    {
      projects := projects0;
      sprints := sprints0;
      reviews := reviews0;
    }

    /** `createSprintReview`; `id` is the id the database assigns. */
    method CreateSprintReview(sprintId: Id, dto: CreateReviewDto, userId: Id, id: Id) returns (r: Result<Review, Failure>)
      requires Valid() && !ReviewIdUsed(reviews, id)
      modifies this
      ensures Valid()
      ensures r.Err? <==> CreateCheck(projects, sprints, old(reviews), sprintId, userId).Some?
      ensures r.Err? ==> r.error == CreateCheck(projects, sprints, old(reviews), sprintId, userId).value && unchanged(this)
      ensures r.Ok? ==> r.value == NewReview(id, sprintId, dto, userId) && reviews == old(reviews) + [r.value]
      ensures r.Ok? ==> ReviewOf(reviews, sprintId) == Some(r.value)
    {
      var check := CreateCheck(projects, sprints, reviews, sprintId, userId);
      if check.Some? {
        return Err(check.value);
      }
      var row := NewReview(id, sprintId, dto, userId);
      CreatedKeeps(reviews, row);
      reviews := reviews + [row];
      r := Ok(row);
    }

    /** `getSprintReview`. */
    method GetSprintReview(sprintId: Id, userId: Id) returns (r: Result<Review, Failure>)
      ensures SprintAccess(projects, sprints, sprintId, userId).Err? ==> r == Err(SprintAccess(projects, sprints, sprintId, userId).error)
      ensures SprintAccess(projects, sprints, sprintId, userId).Ok? && ReviewOf(reviews, sprintId).None? ==> r.Err? && r.error.NotFound?
      ensures r.Ok? <==> SprintAccess(projects, sprints, sprintId, userId).Ok? && ReviewOf(reviews, sprintId).Some?
      ensures r.Ok? ==> r.value in reviews && r.value.sprintId == sprintId
    {
      var access := SprintAccess(projects, sprints, sprintId, userId);
      if access.Err? {
        return Err(access.error);
      }
      var review := ReviewOf(reviews, sprintId);
      if review.None? {
        return Err(NotFound("sprint review"));
      }
      r := Ok(review.value);
    }

    /** `updateSprintReview`: access, manager rule, then the review must exist. */
    method UpdateSprintReview(sprintId: Id, dto: UpdateReviewDto, userId: Id) returns (r: Result<Review, Failure>)
      requires Valid()
      modifies this
      ensures Valid()
      ensures ManagerCheck(projects, sprints, sprintId, userId).Err? ==>
        r == Err(ManagerCheck(projects, sprints, sprintId, userId).error) && unchanged(this)
      ensures ManagerCheck(projects, sprints, sprintId, userId).Ok? && ReviewOf(old(reviews), sprintId).None? ==>
        r.Err? && r.error.NotFound? && unchanged(this)
      ensures r.Ok? <==> ManagerCheck(projects, sprints, sprintId, userId).Ok? && ReviewOf(old(reviews), sprintId).Some?
      ensures r.Ok? ==> r.value == Edited(ReviewOf(old(reviews), sprintId).value, dto)
      ensures r.Ok? ==> reviews == ReplaceReview(old(reviews), sprintId, dto)
    {
      var check := ManagerCheck(projects, sprints, sprintId, userId);
      if check.Err? {
        return Err(check.error);
      }
      var review := ReviewOf(reviews, sprintId);
      if review.None? {
        return Err(NotFound("sprint review"));
      }
      ReplaceKeeps(reviews, sprintId, dto);
      reviews := ReplaceReview(reviews, sprintId, dto);
      r := Ok(Edited(review.value, dto));
    }
  }
}
