/** Planning Poker: estimation sessions over a user story. A session starts as DRAFT, turns
    ACTIVE with its first vote and CLOSED when the moderator finalises it; each member votes
    once per round with a card of the session's deck, the moderator reveals a round and may
    open the next one. */
module Estimation {
  import opened Wrappers
  import opened Scrum
  import Collections

  datatype Method = FIBONACCI | TSHIRT | POWERS_OF_TWO | CUSTOM

  datatype SessionStatus = DRAFT | ACTIVE | CLOSED

  /** A row of the session table. `currentRound` starts at 1 (the table default). */
  datatype Session = Session(
    id: Id,
    projectId: Id,
    storyId: Id,
    name: string,
    moderatorId: Id,
    estimationMethod: Method,
    sequence: seq<string>,
    status: SessionStatus,
    isRevealed: bool,
    currentRound: int,
    finalEstimation: Option<string>,
    startedAt: Option<int>,
    completedAt: Option<int>)

  /** A row of the vote table. */
  datatype Vote = Vote(sessionId: Id, userId: Id, voteValue: string, roundNumber: int, justification: Option<string>)

  /** The story fields estimation reads and writes. */
  datatype StoryRef = StoryRef(id: Id, projectId: Id, estimateHours: real)

  /** `getDefaultSequence`: the deck of a method; CUSTOM without its own deck falls back to
      Fibonacci. */
  function DefaultSequence(m: Method): (deck: seq<string>)
    ensures |deck| >= 7 && deck[|deck| - 1] == "?" && "?" !in deck[..|deck| - 1]
    ensures Collections.NoDuplicates(deck)
    ensures m == CUSTOM ==> deck == ["1", "2", "3", "5", "8", "13", "21", "?"]
  {
    match m
    case TSHIRT => ["XS", "S", "M", "L", "XL", "XXL", "?"]
    case POWERS_OF_TWO => ["1", "2", "4", "8", "16", "32", "?"]
    case _ => ["1", "2", "3", "5", "8", "13", "21", "?"]
  }

  /** `isValidVote`: the card is in the deck. */
  predicate IsValidVote(value: string, deck: seq<string>) {
    value in deck
  }

  /** The user already has a vote in that round of the session. */
  predicate HasVoted(votes: seq<Vote>, sessionId: Id, userId: Id, round: int) {
    exists k :: 0 <= k < |votes| && votes[k].sessionId == sessionId && votes[k].userId == userId && votes[k].roundNumber == round
  }

  /** One vote per (session, user, round): the unique key of the vote table. */
  predicate OneVotePerRound(votes: seq<Vote>) {
    forall a, b :: 0 <= a < b < |votes| ==>
      !(votes[a].sessionId == votes[b].sessionId && votes[a].userId == votes[b].userId && votes[a].roundNumber == votes[b].roundNumber)
  }

  /** `createSession`. `p` is the project (None when it does not exist), `story` the story
      row for `storyId`. Only the owner or a SCRUM_MASTER member may open a session. */
  function NewSession(p: Option<Project>, projectId: Id, userId: Id, story: Option<StoryRef>, id: Id, name: string,
                      storyId: Id, estimationMethod: Method, customSequence: Option<seq<string>>): (r: Result<Session, Failure>)
    ensures (p.None? || !IsOwnerOrMember(p.value, userId)) ==> r.Err? && r.error.Forbidden?
    ensures r.Ok? <==> (p.Some? && IsOwnerOrMember(p.value, userId)
      && (p.value.ownerId == userId
          || (FindMember(p.value.members, userId).Some? && FindMember(p.value.members, userId).value.role == SCRUM_MASTER))
      && story.Some? && story.value.projectId == projectId)
    ensures r.Ok? ==> (r.value.status == DRAFT && !r.value.isRevealed && r.value.moderatorId == userId
      && r.value.sequence == (if customSequence.Some? then customSequence.value else DefaultSequence(estimationMethod))
      && r.value.projectId == projectId && r.value.storyId == storyId && r.value.id == id)
  {
    if p.None? || !IsOwnerOrMember(p.value, userId) then Err(Forbidden("not a member of this project"))
    else
      var member := FindMember(p.value.members, userId);
      var isOwner := p.value.ownerId == userId;
      var isScrumMaster := member.Some? && member.value.role == SCRUM_MASTER;
      if !isOwner && !isScrumMaster then Err(Forbidden("only the Scrum Master or the owner may open a session"))
      else if story.None? then Err(NotFound("story"))
      else if story.value.projectId != projectId then Err(BadRequest("the story belongs to another project"))
      else
        // `customSequence || default`: any given array, even an empty one, is kept.
        var deck := if customSequence.Some? then customSequence.value else DefaultSequence(estimationMethod);
        Ok(Session(id, projectId, storyId, name, userId, estimationMethod, deck, DRAFT, false, 1, None, None, None))
  }

  /** `submitVote` on a session: the session after the vote, or why the vote is refused.
      The vote itself is `Vote(s.id, userId, value, round, justification)`. */
  function CastVote(s: Session, p: Option<Project>, votes: seq<Vote>, userId: Id, value: string, round: int, now: int): (r: Result<Session, Failure>)
    ensures s.status == CLOSED ==> r.Err? && r.error.BadRequest?
    ensures r.Ok? <==> (s.status != CLOSED && p.Some? && IsOwnerOrMember(p.value, userId)
      && IsValidVote(value, s.sequence) && !HasVoted(votes, s.id, userId, round))
    ensures r.Ok? ==> r.value == (if s.status == DRAFT then s.(status := ACTIVE, startedAt := Some(now)) else s)
  {
    if s.status == CLOSED then Err(BadRequest("the session is closed"))
    else if p.None? || !IsOwnerOrMember(p.value, userId) then Err(Forbidden("not a member of this project"))
    else if !IsValidVote(value, s.sequence) then Err(BadRequest("the card is not in the deck"))
    else if HasVoted(votes, s.id, userId, round) then Err(BadRequest("already voted in this round"))
    else if s.status == DRAFT then Ok(s.(status := ACTIVE, startedAt := Some(now)))
    else Ok(s)
  }

  /** The first accepted vote activates a draft session; a vote never reopens or closes one. */
  lemma VoteActivatesDraft(s: Session, p: Option<Project>, votes: seq<Vote>, userId: Id, value: string, round: int, now: int)
    requires CastVote(s, p, votes, userId, value, round, now).Ok?
    ensures var t := CastVote(s, p, votes, userId, value, round, now).value;
      t.status == ACTIVE && (s.status == ACTIVE ==> t == s)
  {
  }

  /** The cards of one round of a session, in table order. */
  function RoundValues(votes: seq<Vote>, sessionId: Id, round: int): (vs: seq<string>)
    ensures |vs| <= |votes|
    ensures forall v :: v in vs <==>
      (exists k :: 0 <= k < |votes| && votes[k].sessionId == sessionId && votes[k].roundNumber == round && votes[k].voteValue == v)
  {
    if votes == [] then []
    else
      var rest := RoundValues(votes[1..], sessionId, round);
      assert forall k :: 1 <= k < |votes| ==> votes[k] == votes[1..][k - 1];
      var v := votes[0];
      (if v.sessionId == sessionId && v.roundNumber == round then [v.voteValue] else []) + rest
  }

  /** The statistics `revealVotes` reports. */
  datatype Statistics = Statistics(totalVotes: nat, uniqueValues: nat, hasConsensus: bool,
                                   hasNumericConsensus: bool, distribution: map<string, nat>)

  /** The statistics of the cards of a round. */
  function RoundStatistics(values: seq<string>): (st: Statistics)
    ensures st.totalVotes == |values| && st.uniqueValues <= |values|
    ensures st.hasConsensus <==> values != [] && forall i :: 0 <= i < |values| ==> values[i] == values[0]
    ensures st.hasNumericConsensus <==> var numeric := Collections.Without(values, "?");
      numeric != [] && forall i :: 0 <= i < |numeric| ==> numeric[i] == numeric[0]
    ensures forall v :: v in st.distribution <==> v in values
    ensures forall v :: v in st.distribution ==> st.distribution[v] == Collections.Count(values, v)
  {
    var unique := Collections.Distinct(values);
    var numeric := Collections.Without(values, "?");
    Collections.SingleDistinctValue(values);
    Collections.SingleDistinctValue(numeric);
    Statistics(|values|, |unique|, |unique| == 1, |Collections.Distinct(numeric)| == 1 && |numeric| > 0, Collections.Tally(values))
  }

  /** The distribution accounts for every vote: its counts over the distinct cards sum to
      the number of votes. */
  lemma DistributionSumsToTotal(values: seq<string>)
    ensures var st := RoundStatistics(values);
      Collections.SumCounts(Collections.Distinct(values), values) == st.totalVotes
      && (forall v :: v in Collections.Distinct(values) <==> v in st.distribution)
      && |Collections.Distinct(values)| == st.uniqueValues
  {
    Collections.DistinctCountsSumToLength(values);
  }

  /** A unanimous round is also a numeric consensus unless everybody played `?`. */
  lemma ConsensusIsNumericUnlessUnknown(values: seq<string>)
    requires RoundStatistics(values).hasConsensus && values[0] != "?"
    ensures RoundStatistics(values).hasNumericConsensus
  {
    var numeric := Collections.Without(values, "?");
    assert values[0] in numeric;
    forall i | 0 <= i < |numeric| ensures numeric[i] == values[0] {
      assert numeric[i] in values;
    }
  }

  /** `revealVotes` after the moderator check: an empty round is refused, otherwise the
      session is revealed and the statistics reported. */
  function Reveal(s: Session, votes: seq<Vote>, round: int): (r: Result<(Session, Statistics), Failure>)
    ensures RoundValues(votes, s.id, round) == [] <==> r.Err?
    ensures r.Err? ==> r.error.BadRequest?
    ensures r.Ok? ==> r.value.0 == s.(isRevealed := true) && r.value.1 == RoundStatistics(RoundValues(votes, s.id, round))
  {
    var values := RoundValues(votes, s.id, round);
    if values == [] then Err(BadRequest("no votes in this round"))
    else Ok((s.(isRevealed := true), RoundStatistics(values)))
  }

  /** The highest round any vote of the session was cast in. */
  function MaxRound(votes: seq<Vote>, sessionId: Id): (m: Option<int>)
    ensures m.None? <==> forall k :: 0 <= k < |votes| ==> votes[k].sessionId != sessionId
    ensures m.Some? ==> exists k :: 0 <= k < |votes| && votes[k].sessionId == sessionId && votes[k].roundNumber == m.value
    ensures m.Some? ==> forall k :: 0 <= k < |votes| && votes[k].sessionId == sessionId ==> votes[k].roundNumber <= m.value
  {
    if votes == [] then None
    else
      var rest := MaxRound(votes[1..], sessionId);
      assert forall k :: 1 <= k < |votes| ==> votes[k] == votes[1..][k - 1];
      if votes[0].sessionId != sessionId then rest
      else if rest.None? || rest.value < votes[0].roundNumber then Some(votes[0].roundNumber)
      else rest
  }

  /** `(maxRound?.roundNumber || 1) + 1`: a missing maximum and a maximum of 0 both count as 1. */
  function ExpectedRound(votes: seq<Vote>, sessionId: Id): (n: int)
    ensures MaxRound(votes, sessionId).None? ==> n == 2
    ensures MaxRound(votes, sessionId).Some? && MaxRound(votes, sessionId).value != 0 ==>
      n == MaxRound(votes, sessionId).value + 1
      && forall k :: 0 <= k < |votes| && votes[k].sessionId == sessionId ==> votes[k].roundNumber < n
  {
    var m := MaxRound(votes, sessionId);
    (if m.Some? && m.value != 0 then m.value else 1) + 1
  }

  /** `startNewRound` after the moderator check. */
  function NewRound(s: Session, votes: seq<Vote>, newRoundNumber: int): (r: Result<Session, Failure>)
    ensures !s.isRevealed ==> r.Err? && r.error.BadRequest?
    ensures r.Ok? <==> s.isRevealed && newRoundNumber == ExpectedRound(votes, s.id)
    ensures r.Ok? ==> r.value == s.(isRevealed := false, currentRound := newRoundNumber)
  {
    if !s.isRevealed then Err(BadRequest("reveal the votes before a new round"))
    else if newRoundNumber != ExpectedRound(votes, s.id) then Err(BadRequest("unexpected round number"))
    else Ok(s.(isRevealed := false, currentRound := newRoundNumber))
  }

  /** `finalizeEstimation` after the moderator check: the closed session. */
  function Finalize(s: Session, finalEstimation: string, now: int): (r: Result<Session, Failure>)
    ensures r.Ok? <==> s.status != CLOSED && IsValidVote(finalEstimation, s.sequence)
    ensures r.Err? ==> r.error.BadRequest?
    ensures r.Ok? ==> r.value == s.(finalEstimation := Some(finalEstimation), status := CLOSED, completedAt := Some(now))
  {
    if s.status == CLOSED then Err(BadRequest("the session is closed"))
    else if !IsValidVote(finalEstimation, s.sequence) then Err(BadRequest("the estimate is not in the deck"))
    else Ok(s.(finalEstimation := Some(finalEstimation), status := CLOSED, completedAt := Some(now)))
  }

  /** A closed session accepts neither votes nor a second finalisation. */
  lemma ClosedIsFinal(s: Session, p: Option<Project>, votes: seq<Vote>, userId: Id, value: string, round: int,
                      estimate: string, now: int)
    requires s.status == CLOSED
    ensures CastVote(s, p, votes, userId, value, round, now).Err?
    ensures Finalize(s, estimate, now).Err?
  {
  }

  /** The votes `getSessionDetails` shows: those of the current round once revealed, none
      before, whoever asks (the moderator included). */
  function VisibleVotes(s: Session, votes: seq<Vote>): (shown: seq<Vote>)
    ensures !s.isRevealed ==> shown == []
    ensures s.isRevealed ==> forall v :: v in shown <==> v in votes && v.sessionId == s.id && v.roundNumber == s.currentRound
  {
    if !s.isRevealed then [] else RoundVotes(votes, s.id, s.currentRound)
  }

  /** The votes of one round of a session, in table order. */
  function RoundVotes(votes: seq<Vote>, sessionId: Id, round: int): (r: seq<Vote>)
    ensures forall v :: v in r <==> v in votes && v.sessionId == sessionId && v.roundNumber == round
  {
    if votes == [] then []
    else
      var head := if votes[0].sessionId == sessionId && votes[0].roundNumber == round then [votes[0]] else [];
      head + RoundVotes(votes[1..], sessionId, round)
  }

  // ---------------------------------------------------------------------------
  // Voting history

  function SessionOf(v: Vote): Id { v.sessionId }

  function RoundOf(v: Vote): int { v.roundNumber }

  /** The sort key of `orderBy: { roundNumber: 'asc' }`, as a descending key. */
  function LaterRoundFirst(v: Vote): int { -v.roundNumber }

  /** The votes of a session, in table order. */
  function SessionVoteRows(votes: seq<Vote>, sessionId: Id): (r: seq<Vote>)
    ensures forall v :: v in r <==> v in votes && v.sessionId == sessionId
  {
    Collections.Keyed(votes, SessionOf, sessionId)
  }

  /** The cards of a list of votes (`roundVotes.map(v => v.voteValue)`). */
  function VoteValues(votes: seq<Vote>): (vs: seq<string>)
    ensures |vs| == |votes| && forall k :: 0 <= k < |votes| ==> vs[k] == votes[k].voteValue
  {
    seq(|votes|, k requires 0 <= k < |votes| => votes[k].voteValue)
  }

  /** One entry of `rounds` in `getVotingHistory`. */
  datatype HistoryRound = HistoryRound(roundNumber: int, votes: seq<Vote>, statistics: Statistics)

  /** The answer of `getVotingHistory`. */
  datatype VotingHistory = VotingHistory(sessionId: Id, status: SessionStatus, totalRounds: nat, rounds: seq<HistoryRound>)

  /** The session's votes ordered by round (`orderBy: [{ roundNumber: 'asc' }, ...]`). */
  function ByRound(votes: seq<Vote>, sessionId: Id): seq<Vote> {
    Collections.SortDesc(SessionVoteRows(votes, sessionId), LaterRoundFirst)
  }

  /** The `reduce` of `getVotingHistory` into an object keyed by round number. */
  function RoundBuckets(votes: seq<Vote>, sessionId: Id): Collections.Buckets<int, Vote> {
    Collections.GroupBy(ByRound(votes, sessionId), RoundOf)
  }

  /** The entry of one key of the grouping. */
  function HistoryEntry(b: Collections.Buckets<int, Vote>, k: int): HistoryRound {
    var vs := if k in b.byKey then b.byKey[k] else [];
    HistoryRound(k, vs, RoundStatistics(VoteValues(vs)))
  }

  /** `Object.keys(votesByRound).map(...)`: one entry per round key, in key order. */
  function HistoryRounds(votes: seq<Vote>, sessionId: Id): (r: seq<HistoryRound>)
    ensures |r| == |RoundBuckets(votes, sessionId).keys|
    ensures forall i :: 0 <= i < |r| ==> r[i].statistics.totalVotes == |r[i].votes|
  {
    var b := RoundBuckets(votes, sessionId);
    seq(|b.keys|, i requires 0 <= i < |b.keys| => HistoryEntry(b, b.keys[i]))
  }

  /** The history's entries come in increasing round order, one per round. */
  lemma HistoryRoundsIncrease(votes: seq<Vote>, sessionId: Id)
    ensures var r := HistoryRounds(votes, sessionId);
      forall i, j :: 0 <= i < j < |r| ==> r[i].roundNumber < r[j].roundNumber
  {
    var b := RoundBuckets(votes, sessionId);
    OrderedByRound(SessionVoteRows(votes, sessionId), ByRound(votes, sessionId));
    Collections.GroupBySortedKeys(ByRound(votes, sessionId), RoundOf);
    var r := HistoryRounds(votes, sessionId);
    assert forall i :: 0 <= i < |r| ==> r[i].roundNumber == b.keys[i];
  }

  /** Each entry holds exactly the session's votes of its round, and is not empty. */
  lemma HistoryRoundsExact(votes: seq<Vote>, sessionId: Id)
    ensures var r := HistoryRounds(votes, sessionId);
      forall i :: 0 <= i < |r| ==> (r[i].votes != [] &&
        forall v :: v in r[i].votes <==> v in votes && v.sessionId == sessionId && v.roundNumber == r[i].roundNumber)
  {
    var b := RoundBuckets(votes, sessionId);
    var ordered := ByRound(votes, sessionId);
    OrderedByRound(SessionVoteRows(votes, sessionId), ordered);
    Collections.GroupByKeys(ordered, RoundOf);
    var r := HistoryRounds(votes, sessionId);
    forall i | 0 <= i < |r| ensures r[i].votes != [] &&
      forall v :: v in r[i].votes <==> v in votes && v.sessionId == sessionId && v.roundNumber == r[i].roundNumber
    {
      assert r[i] == HistoryEntry(b, b.keys[i]);
      assert r[i].votes == Collections.Keyed(ordered, RoundOf, b.keys[i]);
    }
  }

  /** Every round the session has a vote in has an entry. */
  lemma HistoryRoundsComplete(votes: seq<Vote>, sessionId: Id)
    ensures var r := HistoryRounds(votes, sessionId);
      forall v :: v in votes && v.sessionId == sessionId ==> exists i :: 0 <= i < |r| && r[i].roundNumber == v.roundNumber
  {
    var b := RoundBuckets(votes, sessionId);
    var ordered := ByRound(votes, sessionId);
    OrderedByRound(SessionVoteRows(votes, sessionId), ordered);
    Collections.GroupByKeys(ordered, RoundOf);
    var r := HistoryRounds(votes, sessionId);
    forall v | v in votes && v.sessionId == sessionId ensures exists i :: 0 <= i < |r| && r[i].roundNumber == v.roundNumber {
      var n :| 0 <= n < |ordered| && ordered[n] == v;
      assert RoundOf(ordered[n]) in b.keys;
      var i :| 0 <= i < |b.keys| && b.keys[i] == v.roundNumber;
      assert r[i].roundNumber == b.keys[i];
    }
  }

  /** The sorted votes are the session's votes, by increasing round. */
  lemma OrderedByRound(own: seq<Vote>, ordered: seq<Vote>)
    requires ordered == Collections.SortDesc(own, LaterRoundFirst)
    ensures forall v :: v in ordered <==> v in own
    ensures forall i, j :: 0 <= i < j < |ordered| ==> RoundOf(ordered[i]) <= RoundOf(ordered[j])
  {
    forall v ensures v in ordered <==> v in own {
      assert v in ordered <==> v in multiset(ordered);
      assert v in own <==> v in multiset(own);
    }
    forall i, j | 0 <= i < j < |ordered| ensures RoundOf(ordered[i]) <= RoundOf(ordered[j]) {
      assert LaterRoundFirst(ordered[i]) >= LaterRoundFirst(ordered[j]);
    }
  }

  /** The statistics of a list of votes report consensus exactly when all its cards are
      equal, and their distribution counts every vote. */
  lemma VotesConsensus(vs: seq<Vote>)
    ensures var st := RoundStatistics(VoteValues(vs));
      (st.hasConsensus <==> vs != [] && forall v, w :: v in vs && w in vs ==> v.voteValue == w.voteValue)
      && Collections.SumCounts(Collections.Distinct(VoteValues(vs)), VoteValues(vs)) == |vs|
  {
    var values := VoteValues(vs);
    DistributionSumsToTotal(values);
    if RoundStatistics(values).hasConsensus {
      forall v, w | v in vs && w in vs ensures v.voteValue == w.voteValue {
        var a :| 0 <= a < |vs| && vs[a] == v;
        var c :| 0 <= c < |vs| && vs[c] == w;
        assert values[a] == values[0] && values[c] == values[0];
      }
    }
    if vs != [] && forall v, w :: v in vs && w in vs ==> v.voteValue == w.voteValue {
      forall k | 0 <= k < |values| ensures values[k] == values[0] {
        assert vs[k] in vs && vs[0] in vs;
      }
    }
  }

  /** A round of the history has reached consensus exactly when all its cards are equal. */
  lemma HistoryConsensus(votes: seq<Vote>, sessionId: Id, i: nat)
    requires i < |HistoryRounds(votes, sessionId)|
    ensures var round := HistoryRounds(votes, sessionId)[i];
      round.statistics.hasConsensus <==> forall v, w :: v in round.votes && w in round.votes ==> v.voteValue == w.voteValue
  {
    var round := HistoryRounds(votes, sessionId)[i];
    var b := RoundBuckets(votes, sessionId);
    assert round == HistoryEntry(b, b.keys[i]);
    HistoryRoundsExact(votes, sessionId);
    VotesConsensus(round.votes);
  }

  /** The Planning Poker tables. */
  class EstimationService {
    var projects: map<Id, Project>
    var stories: map<Id, StoryRef>
    var sessions: map<Id, Session>
    var votes: seq<Vote>

    predicate Valid()
      reads this
    {
      OneVotePerRound(votes) && forall id :: id in sessions ==> sessions[id].id == id
    }

    constructor()
      ensures Valid() && projects == map[] && stories == map[] && sessions == map[] && votes == []
    {
      projects := map[];
      stories := map[];
      sessions := map[];
      votes := [];
    }

    /** `ensureProjectMember`: the project exists and the caller owns it or is an active
        member; a missing project is refused like an outsider. */
    function MemberCheck(projectId: Id, userId: Id): (r: Option<Failure>)
      reads this
      ensures r.None? <==> projectId in projects && IsOwnerOrMember(projects[projectId], userId)
      ensures r.Some? ==> r.value.Forbidden?
    {
      if projectId in projects && IsOwnerOrMember(projects[projectId], userId) then None
      else Some(Forbidden("not a member of this project"))
    }

    /** `listProjectSessions`: for a member, every session of the project with the number of
        votes cast in it over all rounds. */
    method ListProjectSessions(projectId: Id, userId: Id) returns (r: Result<map<Id, (Session, nat)>, Failure>)
      ensures r.Err? <==> MemberCheck(projectId, userId).Some?
      ensures r.Err? ==> r.error.Forbidden?
      ensures r.Ok? ==> forall id :: id in r.value <==> id in sessions && sessions[id].projectId == projectId
      ensures r.Ok? ==> forall id :: id in r.value ==>
        r.value[id].0 == sessions[id] && r.value[id].1 == |SessionVoteRows(votes, id)|
    {
      var check := MemberCheck(projectId, userId);
      if check.Some? {
        return Err(check.value);
      }
      var rows := sessions;
      var cast := votes;
      r := Ok(map id | id in rows && rows[id].projectId == projectId :: (rows[id], |SessionVoteRows(cast, id)|));
    }

    /** `getVotingHistory`: an unknown session is NotFound and an outsider Forbidden; a member
        gets the session's status and its rounds. */
    method GetVotingHistory(sessionId: Id, userId: Id) returns (r: Result<VotingHistory, Failure>)
      ensures sessionId !in sessions ==> r.Err? && r.error.NotFound?
      ensures sessionId in sessions ==> (r.Err? <==> MemberCheck(sessions[sessionId].projectId, userId).Some?)
      ensures sessionId in sessions && r.Err? ==> r.error.Forbidden?
      ensures r.Ok? ==> r.value.sessionId == sessionId && r.value.status == sessions[sessionId].status
      ensures r.Ok? ==> r.value.rounds == HistoryRounds(votes, sessionId) && r.value.totalRounds == |r.value.rounds|
    {
      if sessionId !in sessions {
        return Err(NotFound("session"));
      }
      var s := sessions[sessionId];
      var check := MemberCheck(s.projectId, userId);
      if check.Some? {
        return Err(check.value);
      }
      var rounds := HistoryRounds(votes, sessionId);
      r := Ok(VotingHistory(sessionId, s.status, |rounds|, rounds));
    }

    /** `ensureModerator`: the session exists and the caller moderates it. */
    function ModeratorCheck(sessionId: Id, userId: Id): (r: Option<Failure>)
      reads this
      ensures r.None? <==> sessionId in sessions && sessions[sessionId].moderatorId == userId
    {
      if sessionId !in sessions then Some(NotFound("session"))
      else if sessions[sessionId].moderatorId != userId then Some(Forbidden("only the moderator may do this"))
      else None
    }

    /** `createSession`; `id` is the id the database assigns. */
    method CreateSession(projectId: Id, userId: Id, id: Id, name: string, storyId: Id, estimationMethod: Method,
                         customSequence: Option<seq<string>>) returns (r: Result<Session, Failure>)
      requires Valid() && id !in sessions
      modifies this
      ensures Valid() && votes == old(votes) && projects == old(projects) && stories == old(stories)
      ensures var p := if projectId in projects then Some(projects[projectId]) else None;
        var story := if storyId in stories then Some(stories[storyId]) else None;
        r == NewSession(p, projectId, userId, story, id, name, storyId, estimationMethod, customSequence)
        && sessions == if r.Ok? then old(sessions)[id := r.value] else old(sessions)
    {
      var p := if projectId in projects then Some(projects[projectId]) else None;
      var story := if storyId in stories then Some(stories[storyId]) else None;
      r := NewSession(p, projectId, userId, story, id, name, storyId, estimationMethod, customSequence);
      if r.Ok? {
        sessions := sessions[id := r.value];
      }
    }

    /** `submitVote`: records the vote and activates a draft session. */
    method SubmitVote(sessionId: Id, userId: Id, value: string, round: int, justification: Option<string>, now: int)
      returns (r: Result<Vote, Failure>)
      requires Valid()
      modifies this
      ensures Valid() && projects == old(projects) && stories == old(stories)
      ensures sessionId !in old(sessions) ==> r.Err? && r.error.NotFound? && unchanged(this)
      ensures sessionId in old(sessions) ==>
        var s := old(sessions)[sessionId];
        var p := if s.projectId in projects then Some(projects[s.projectId]) else None;
        var t := CastVote(s, p, old(votes), userId, value, round, now);
        (t.Err? ==> r == Err(t.error) && unchanged(this))
        && (t.Ok? ==> (r == Ok(Vote(sessionId, userId, value, round, justification))
              && votes == old(votes) + [r.value] && sessions == old(sessions)[sessionId := t.value]))
    {
      if sessionId !in sessions {
        return Err(NotFound("session"));
      }
      var s := sessions[sessionId];
      var p := if s.projectId in projects then Some(projects[s.projectId]) else None;
      var t := CastVote(s, p, votes, userId, value, round, now);
      if t.Err? {
        return Err(t.error);
      }
      var vote := Vote(sessionId, userId, value, round, justification);
      assert !HasVoted(votes, s.id, userId, round);
      votes := votes + [vote];
      sessions := sessions[sessionId := t.value];
      r := Ok(vote);
    }

    /** `revealVotes`. */
    method RevealVotes(sessionId: Id, userId: Id, round: int) returns (r: Result<Statistics, Failure>)
      requires Valid()
      modifies this
      ensures Valid() && votes == old(votes) && projects == old(projects) && stories == old(stories)
      ensures old(ModeratorCheck(sessionId, userId)).Some? ==> r == Err(old(ModeratorCheck(sessionId, userId)).value) && unchanged(this)
      ensures old(ModeratorCheck(sessionId, userId)).None? ==>
        var t := Reveal(old(sessions)[sessionId], votes, round);
        (t.Err? ==> r == Err(t.error) && unchanged(this))
        && (t.Ok? ==> r == Ok(t.value.1) && sessions == old(sessions)[sessionId := t.value.0])
    {
      var check := ModeratorCheck(sessionId, userId);
      if check.Some? {
        return Err(check.value);
      }
      var t := Reveal(sessions[sessionId], votes, round);
      if t.Err? {
        return Err(t.error);
      }
      sessions := sessions[sessionId := t.value.0];
      r := Ok(t.value.1);
    }

    /** `startNewRound`. */
    method StartNewRound(sessionId: Id, userId: Id, newRoundNumber: int) returns (r: Result<Session, Failure>)
      requires Valid()
      modifies this
      ensures Valid() && votes == old(votes) && projects == old(projects) && stories == old(stories)
      ensures old(ModeratorCheck(sessionId, userId)).Some? ==> r == Err(old(ModeratorCheck(sessionId, userId)).value) && unchanged(this)
      ensures old(ModeratorCheck(sessionId, userId)).None? ==>
        r == NewRound(old(sessions)[sessionId], votes, newRoundNumber)
        && sessions == if r.Ok? then old(sessions)[sessionId := r.value] else old(sessions)
    {
      var check := ModeratorCheck(sessionId, userId);
      if check.Some? {
        return Err(check.value);
      }
      r := NewRound(sessions[sessionId], votes, newRoundNumber);
      if r.Ok? {
        sessions := sessions[sessionId := r.value];
      }
    }

    /** `finalizeEstimation`: closes the session and stores the estimate on its story, both
        or neither (one transaction). */
    method FinalizeEstimation(sessionId: Id, userId: Id, finalEstimation: string, estimateHours: real, now: int)
      returns (r: Result<Session, Failure>)
      requires Valid()
      modifies this
      ensures Valid() && votes == old(votes) && projects == old(projects)
      ensures old(ModeratorCheck(sessionId, userId)).Some? ==> r == Err(old(ModeratorCheck(sessionId, userId)).value) && unchanged(this)
      ensures old(ModeratorCheck(sessionId, userId)).None? ==>
        var s := old(sessions)[sessionId];
        var t := Finalize(s, finalEstimation, now);
        (t.Err? ==> r == t && unchanged(this))
        && (t.Ok? && s.storyId !in old(stories) ==> r.Err? && r.error.NotFound? && unchanged(this))
        && (t.Ok? && s.storyId in old(stories) ==>
              r == t && sessions == old(sessions)[sessionId := t.value]
              && stories == old(stories)[s.storyId := old(stories)[s.storyId].(estimateHours := estimateHours)])
    {
      var check := ModeratorCheck(sessionId, userId);
      if check.Some? {
        return Err(check.value);
      }
      var s := sessions[sessionId];
      var t := Finalize(s, finalEstimation, now);
      if t.Err? {
        return t;
      }
      if s.storyId !in stories {
        return Err(NotFound("story"));
      }
      sessions := sessions[sessionId := t.value];
      stories := stories[s.storyId := stories[s.storyId].(estimateHours := estimateHours)];
      r := t;
    }

    /** The vote part of `getSessionDetails`: the visible votes and whether the caller has
        voted in the current round. */
    method SessionVotes(sessionId: Id, userId: Id) returns (r: Result<(seq<Vote>, bool), Failure>)
      ensures sessionId !in sessions ==> r.Err? && r.error.NotFound?
      ensures sessionId in sessions ==>
        var s := sessions[sessionId];
        (s.projectId !in projects || !IsOwnerOrMember(projects[s.projectId], userId) ==> r.Err? && r.error.Forbidden?)
        && (s.projectId in projects && IsOwnerOrMember(projects[s.projectId], userId) ==>
              r == Ok((VisibleVotes(s, votes), HasVoted(votes, sessionId, userId, s.currentRound))))
    {
      if sessionId !in sessions {
        return Err(NotFound("session"));
      }
      var s := sessions[sessionId];
      if s.projectId !in projects || !IsOwnerOrMember(projects[s.projectId], userId) {
        return Err(Forbidden("not a member of this project"));
      }
      r := Ok((VisibleVotes(s, votes), HasVoted(votes, sessionId, userId, s.currentRound)));
    }
  }
}
