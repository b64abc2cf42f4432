/** What a GitHub synchronisation stores: the commits and pull requests of each repository
    (one row per repository and sha, one per repository and PR number), each linked to the
    story and the task its text mentions, and a log row per run. */
module GitHubStore {
  import opened Wrappers
  import opened Scrum
  import opened Backlog
  import opened Repositories
  import opened GitHubSync
  import Collections

  // ---------------------------------------------------------------------------------
  // Commits

  /** A commit as the GitHub commits endpoint lists it; dates are instants. */
  datatype RemoteCommit = RemoteCommit(
    sha: string,
    message: string,
    author: string,
    authorEmail: string,
    committedAt: int,
    url: string)

  /** A row of the commit table. */
  datatype Commit = Commit(
    id: Id,
    repositoryId: Id,
    sha: string,
    shortSha: string,
    message: string,
    author: string,
    authorEmail: string,
    committedAt: int,
    branch: string,
    url: string,
    linkedStoryId: Option<Id>,
    linkedTaskId: Option<Id>)

  /** `sha.substring(0, 7)`: the first seven characters, or all of a shorter sha. */
  function ShortSha(sha: string): (r: string)
    ensures |r| == if |sha| < 7 then |sha| else 7
    ensures r == sha[..|r|]
  {
    if |sha| < 7 then sha else sha[..7]
  }

  /** The unique index `repositoryId_sha`. */
  predicate UniqueCommitKeys(rows: seq<Commit>) {
    forall i, j :: 0 <= i < j < |rows| ==> rows[i].repositoryId != rows[j].repositoryId || rows[i].sha != rows[j].sha
  }

  predicate UniqueCommitIds(rows: seq<Commit>) {
    forall i, j :: 0 <= i < j < |rows| ==> rows[i].id != rows[j].id
  }

  predicate CommitIdUsed(rows: seq<Commit>, id: Id) {
    exists k :: 0 <= k < |rows| && rows[k].id == id
  }

  predicate HasCommit(rows: seq<Commit>, repositoryId: Id, sha: string) {
    exists k :: 0 <= k < |rows| && rows[k].repositoryId == repositoryId && rows[k].sha == sha
  }

  /** The fields the upsert never rewrites: identity and what was set at creation. */
  predicate SameCommit(a: Commit, b: Commit) {
    a.id == b.id && a.repositoryId == b.repositoryId && a.sha == b.sha && a.shortSha == b.shortSha
    && a.committedAt == b.committedAt && a.url == b.url
  }

  /** The row carries what the latest synchronisation of `c` wrote. */
  predicate Mirrors(row: Commit, repositoryId: Id, c: RemoteCommit, branch: string, links: Links) {
    row.repositoryId == repositoryId && row.sha == c.sha && row.message == c.message
    && row.author == c.author && row.authorEmail == c.authorEmail && row.branch == branch
    && row.linkedStoryId == links.storyId && row.linkedTaskId == links.taskId
  }

  /** The `create` branch of the upsert. */
  function NewCommit(id: Id, repositoryId: Id, c: RemoteCommit, branch: string, links: Links): (row: Commit)
    ensures Mirrors(row, repositoryId, c, branch, links)
    ensures row.id == id && row.shortSha == ShortSha(c.sha) && row.committedAt == c.committedAt && row.url == c.url
  {
    Commit(id, repositoryId, c.sha, ShortSha(c.sha), c.message, c.author, c.authorEmail, c.committedAt, branch, c.url,
      links.storyId, links.taskId)
  }

  function IsCommitKey(repositoryId: Id, sha: string): Commit -> bool {
    (row: Commit) => row.repositoryId == repositoryId && row.sha == sha
  }

  /** `gitHubCommit.upsert` of one fetched commit: a stored row with the same repository and
      sha gets the new message, author, e-mail, branch and links; otherwise a row is added. */
  function UpsertCommit(rows: seq<Commit>, repositoryId: Id, c: RemoteCommit, branch: string, links: Links, newId: Id): (r: seq<Commit>)
    ensures HasCommit(rows, repositoryId, c.sha) ==> |r| == |rows|
    ensures !HasCommit(rows, repositoryId, c.sha) ==> r == rows + [NewCommit(newId, repositoryId, c, branch, links)]
    ensures forall k :: 0 <= k < |rows| ==> SameCommit(rows[k], r[k])
    ensures forall k :: (0 <= k < |rows| && (rows[k].repositoryId != repositoryId || rows[k].sha != c.sha)) ==> r[k] == rows[k]
    ensures exists k :: 0 <= k < |r| && Mirrors(r[k], repositoryId, c, branch, links)
  {
    var k := Collections.FirstWhere(rows, IsCommitKey(repositoryId, c.sha));
    if k < |rows| then
      var row := rows[k].(message := c.message, author := c.author, authorEmail := c.authorEmail, branch := branch,
        linkedStoryId := links.storyId, linkedTaskId := links.taskId);
      assert Mirrors(rows[k := row][k], repositoryId, c, branch, links);
      rows[k := row]
    else
      assert Mirrors((rows + [NewCommit(newId, repositoryId, c, branch, links)])[|rows|], repositoryId, c, branch, links);
      rows + [NewCommit(newId, repositoryId, c, branch, links)]
  }

  /** The repository, project and branch a synchronisation writes for. */
  datatype Target = Target(repositoryId: Id, projectId: Id, branch: string)

  /** The commit loop of `syncRepository`: every fetched commit upserted in order with its
      links; the k-th one, when it is new, gets `ids[k]`. */
  function SavedCommits(rows: seq<Commit>, t: Target, fetched: seq<RemoteCommit>, links: seq<Links>, ids: seq<Id>): (r: seq<Commit>)
    requires |links| == |fetched| && |ids| == |fetched|
    ensures |rows| <= |r| <= |rows| + |fetched|
    decreases |fetched|
  {
    if fetched == [] then rows
    else
      var n := |fetched| - 1;
      UpsertCommit(SavedCommits(rows, t, fetched[..n], links[..n], ids[..n]), t.repositoryId, fetched[n], t.branch, links[n], ids[n])
  }

  /** The links `findStoryByCode` and `findTaskByCode` give each message, in order. */
  function MessageLinks(stories: seq<Story>, tasks: seq<Task>, projectId: Id, messages: seq<string>): (r: seq<Links>)
    ensures |r| == |messages|
    ensures forall k :: 0 <= k < |r| ==> r[k] == LinksOf(stories, tasks, projectId, messages[k])
  {
    seq(|messages|, k requires 0 <= k < |messages| => LinksOf(stories, tasks, projectId, messages[k]))
  }

  /** One more turn of the commit loop. */
  lemma SavedCommitsStep(rows: seq<Commit>, t: Target, fetched: seq<RemoteCommit>, links: seq<Links>, ids: seq<Id>, k: nat)
    requires |links| == |fetched| && |ids| == |fetched| && k < |fetched|
    ensures SavedCommits(rows, t, fetched[..k + 1], links[..k + 1], ids[..k + 1])
      == UpsertCommit(SavedCommits(rows, t, fetched[..k], links[..k], ids[..k]), t.repositoryId, fetched[k], t.branch, links[k], ids[k])
  {
    assert fetched[..k + 1][..k] == fetched[..k] && links[..k + 1][..k] == links[..k] && ids[..k + 1][..k] == ids[..k];
  }

  /** Fresh ids for the commits a run may add. */
  predicate FreshCommitIds(rows: seq<Commit>, ids: seq<Id>) {
    Collections.NoDuplicates(ids) && forall k :: 0 <= k < |ids| ==> !CommitIdUsed(rows, ids[k])
  }

  /** The loop never drops or re-keys a row, only refreshes the target repository's rows and
      appends new rows for it. */
  lemma {:induction false} SavedCommitsKeep(rows: seq<Commit>, t: Target, fetched: seq<RemoteCommit>, links: seq<Links>, ids: seq<Id>)
    requires |links| == |fetched| && |ids| == |fetched|
    ensures var r := SavedCommits(rows, t, fetched, links, ids);
      |rows| <= |r| <= |rows| + |fetched|
      && (forall k :: 0 <= k < |rows| ==> SameCommit(rows[k], r[k]))
      && (forall k :: 0 <= k < |rows| && rows[k].repositoryId != t.repositoryId ==> r[k] == rows[k])
      && (forall k :: |rows| <= k < |r| ==> r[k].repositoryId == t.repositoryId)
    decreases |fetched|
  {
    if fetched != [] {
      var n := |fetched| - 1;
      SavedCommitsKeep(rows, t, fetched[..n], links[..n], ids[..n]);
    }
  }

  /** Every row the loop adds takes its id from `ids`. */
  lemma {:induction false} SavedCommitIds(rows: seq<Commit>, t: Target, fetched: seq<RemoteCommit>, links: seq<Links>, ids: seq<Id>)
    requires |links| == |fetched| && |ids| == |fetched|
    ensures var r := SavedCommits(rows, t, fetched, links, ids);
      forall k :: |rows| <= k < |r| ==> r[k].id in ids
    decreases |fetched|
  {
    if fetched != [] {
      var n := |fetched| - 1;
      SavedCommitIds(rows, t, fetched[..n], links[..n], ids[..n]);
      SavedCommitsKeep(rows, t, fetched[..n], links[..n], ids[..n]);
    }
  }

  /** The loop keeps the unique index and the unique ids, given fresh ids. */
  lemma {:induction false} SavedCommitsUnique(rows: seq<Commit>, t: Target, fetched: seq<RemoteCommit>, links: seq<Links>, ids: seq<Id>)
    requires |links| == |fetched| && |ids| == |fetched|
    requires UniqueCommitKeys(rows) && UniqueCommitIds(rows) && FreshCommitIds(rows, ids)
    ensures UniqueCommitKeys(SavedCommits(rows, t, fetched, links, ids))
    ensures UniqueCommitIds(SavedCommits(rows, t, fetched, links, ids))
    decreases |fetched|
  {
    if fetched != [] {
      var n := |fetched| - 1;
      var prev := SavedCommits(rows, t, fetched[..n], links[..n], ids[..n]);
      assert FreshCommitIds(rows, ids[..n]);
      SavedCommitsUnique(rows, t, fetched[..n], links[..n], ids[..n]);
      NextCommitIdFresh(rows, t, fetched, links, ids);
      UpsertCommitUnique(prev, t.repositoryId, fetched[n], t.branch, links[n], ids[n]);
    }
  }

  /** The id the loop offers the n-th commit is unused when that commit comes up. */
  lemma NextCommitIdFresh(rows: seq<Commit>, t: Target, fetched: seq<RemoteCommit>, links: seq<Links>, ids: seq<Id>)
    requires |links| == |fetched| && |ids| == |fetched| && fetched != []
    requires FreshCommitIds(rows, ids)
    ensures var n := |fetched| - 1;
      !CommitIdUsed(SavedCommits(rows, t, fetched[..n], links[..n], ids[..n]), ids[n])
  {
    var n := |fetched| - 1;
    var prev := SavedCommits(rows, t, fetched[..n], links[..n], ids[..n]);
    SavedCommitsKeep(rows, t, fetched[..n], links[..n], ids[..n]);
    SavedCommitIds(rows, t, fetched[..n], links[..n], ids[..n]);
    forall k | 0 <= k < |prev| ensures prev[k].id != ids[n] {
      if k < |rows| {
        assert SameCommit(rows[k], prev[k]);
        assert !CommitIdUsed(rows, ids[n]);
      } else {
        assert prev[k].id in ids[..n];
      }
    }
  }

  /** One upsert keeps the unique index, and the unique ids when the new id is fresh. */
  lemma UpsertCommitUnique(rows: seq<Commit>, repositoryId: Id, c: RemoteCommit, branch: string, links: Links, newId: Id)
    requires UniqueCommitKeys(rows) && UniqueCommitIds(rows)
    requires !HasCommit(rows, repositoryId, c.sha) ==> !CommitIdUsed(rows, newId)
    ensures UniqueCommitKeys(UpsertCommit(rows, repositoryId, c, branch, links, newId))
    ensures UniqueCommitIds(UpsertCommit(rows, repositoryId, c, branch, links, newId))
  {
    var r := UpsertCommit(rows, repositoryId, c, branch, links, newId);
    assert forall k :: 0 <= k < |rows| ==> SameCommit(rows[k], r[k]);
    if !HasCommit(rows, repositoryId, c.sha) {
      assert r[|rows|] == NewCommit(newId, repositoryId, c, branch, links);
    }
  }

  /** Every fetched commit ends up stored for the repository. */
  lemma {:induction false} SavedCommitsStored(rows: seq<Commit>, t: Target, fetched: seq<RemoteCommit>, links: seq<Links>, ids: seq<Id>)
    requires |links| == |fetched| && |ids| == |fetched|
    ensures forall i :: 0 <= i < |fetched| ==> HasCommit(SavedCommits(rows, t, fetched, links, ids), t.repositoryId, fetched[i].sha)
    decreases |fetched|
  {
    if fetched != [] {
      var n := |fetched| - 1;
      var prev := SavedCommits(rows, t, fetched[..n], links[..n], ids[..n]);
      SavedCommitsStored(rows, t, fetched[..n], links[..n], ids[..n]);
      UpsertStoresCommit(prev, t.repositoryId, fetched[n], t.branch, links[n], ids[n]);
      forall i | 0 <= i < n
        ensures HasCommit(SavedCommits(rows, t, fetched, links, ids), t.repositoryId, fetched[i].sha)
      {
        assert fetched[..n][i] == fetched[i];
        UpsertKeepsCommit(prev, t.repositoryId, fetched[n], t.branch, links[n], ids[n], fetched[i].sha);
      }
    }
  }

  /** After an upsert the commit is stored for the repository. */
  lemma UpsertStoresCommit(rows: seq<Commit>, repositoryId: Id, c: RemoteCommit, branch: string, links: Links, newId: Id)
    ensures HasCommit(UpsertCommit(rows, repositoryId, c, branch, links, newId), repositoryId, c.sha)
  {
    var r := UpsertCommit(rows, repositoryId, c, branch, links, newId);
    var k :| 0 <= k < |r| && Mirrors(r[k], repositoryId, c, branch, links);
  }

  /** An upsert never loses a stored commit. */
  lemma UpsertKeepsCommit(rows: seq<Commit>, repositoryId: Id, c: RemoteCommit, branch: string, links: Links, newId: Id, sha: string)
    requires HasCommit(rows, repositoryId, sha)
    ensures HasCommit(UpsertCommit(rows, repositoryId, c, branch, links, newId), repositoryId, sha)
  {
    var r := UpsertCommit(rows, repositoryId, c, branch, links, newId);
    var k :| 0 <= k < |rows| && rows[k].repositoryId == repositoryId && rows[k].sha == sha;
    assert SameCommit(rows[k], r[k]);
  }

  /** Synchronising the same commit twice in a row stores what synchronising it once does. */
  lemma UpsertCommitTwice(rows: seq<Commit>, repositoryId: Id, c: RemoteCommit, branch: string, links: Links, id1: Id, id2: Id)
    ensures var once := UpsertCommit(rows, repositoryId, c, branch, links, id1);
      UpsertCommit(once, repositoryId, c, branch, links, id2) == once
  {
    var once := UpsertCommit(rows, repositoryId, c, branch, links, id1);
    var key := IsCommitKey(repositoryId, c.sha);
    var k := Collections.FirstWhere(rows, key);
    var k2 := Collections.FirstWhere(once, key);
    if k < |rows| {
      assert forall j :: 0 <= j < k ==> once[j] == rows[j];
      assert key(once[k]);
      assert k2 == k;
      assert once[k2 := once[k2].(message := c.message, author := c.author, authorEmail := c.authorEmail, branch := branch,
        linkedStoryId := links.storyId, linkedTaskId := links.taskId)] == once;
    } else {
      assert once == rows + [NewCommit(id1, repositoryId, c, branch, links)];
      assert key(once[|rows|]);
      assert k2 == |rows|;
      assert once[k2 := once[k2].(message := c.message, author := c.author, authorEmail := c.authorEmail, branch := branch,
        linkedStoryId := links.storyId, linkedTaskId := links.taskId)] == once;
    }
  }

  // ---------------------------------------------------------------------------------
  // Pull requests

  /** A pull request as the GitHub pulls endpoint lists it (`state: 'all'`). */
  datatype RemotePull = RemotePull(
    number: int,
    title: string,
    state: string,
    author: string,
    sourceBranch: string,
    targetBranch: string,
    url: string,
    createdAt: int,
    closedAt: Option<int>)

  /** A row of the pull-request table. */
  datatype PullRequest = PullRequest(
    id: Id,
    repositoryId: Id,
    number: int,
    title: string,
    state: string,
    author: string,
    sourceBranch: string,
    targetBranch: string,
    url: string,
    createdAtGitHub: int,
    closedAtGitHub: Option<int>,
    linkedStoryId: Option<Id>,
    linkedTaskId: Option<Id>)

  /** The unique index `repositoryId_number`. */
  predicate UniquePullKeys(rows: seq<PullRequest>) {
    forall i, j :: 0 <= i < j < |rows| ==> rows[i].repositoryId != rows[j].repositoryId || rows[i].number != rows[j].number
  }

  predicate UniquePullIds(rows: seq<PullRequest>) {
    forall i, j :: 0 <= i < j < |rows| ==> rows[i].id != rows[j].id
  }

  predicate PullIdUsed(rows: seq<PullRequest>, id: Id) {
    exists k :: 0 <= k < |rows| && rows[k].id == id
  }

  predicate HasPull(rows: seq<PullRequest>, repositoryId: Id, number: int) {
    exists k :: 0 <= k < |rows| && rows[k].repositoryId == repositoryId && rows[k].number == number
  }

  /** The fields the upsert never rewrites. */
  predicate SamePull(a: PullRequest, b: PullRequest) {
    a.id == b.id && a.repositoryId == b.repositoryId && a.number == b.number && a.author == b.author
    && a.sourceBranch == b.sourceBranch && a.targetBranch == b.targetBranch && a.url == b.url
    && a.createdAtGitHub == b.createdAtGitHub
  }

  /** The row carries what the latest synchronisation of `p` wrote. */
  predicate MirrorsPull(row: PullRequest, repositoryId: Id, p: RemotePull, links: Links) {
    row.repositoryId == repositoryId && row.number == p.number && row.title == p.title && row.state == p.state
    && row.closedAtGitHub == p.closedAt && row.linkedStoryId == links.storyId && row.linkedTaskId == links.taskId
  }

  /** The `create` branch of the upsert. */
  function NewPull(id: Id, repositoryId: Id, p: RemotePull, links: Links): (row: PullRequest)
    ensures MirrorsPull(row, repositoryId, p, links)
    ensures row.id == id && row.author == p.author && row.sourceBranch == p.sourceBranch
    ensures row.targetBranch == p.targetBranch && row.url == p.url && row.createdAtGitHub == p.createdAt
  {
    PullRequest(id, repositoryId, p.number, p.title, p.state, p.author, p.sourceBranch, p.targetBranch, p.url,
      p.createdAt, p.closedAt, links.storyId, links.taskId)
  }

  function IsPullKey(repositoryId: Id, number: int): PullRequest -> bool {
    (row: PullRequest) => row.repositoryId == repositoryId && row.number == number
  }

  /** `gitHubPullRequest.upsert` of one fetched pull request: a stored row with the same
      repository and number gets the new title, state, closing date and links; otherwise a
      row is added. */
  function UpsertPull(rows: seq<PullRequest>, repositoryId: Id, p: RemotePull, links: Links, newId: Id): (r: seq<PullRequest>)
    ensures HasPull(rows, repositoryId, p.number) ==> |r| == |rows|
    ensures !HasPull(rows, repositoryId, p.number) ==> r == rows + [NewPull(newId, repositoryId, p, links)]
    ensures forall k :: 0 <= k < |rows| ==> SamePull(rows[k], r[k])
    ensures forall k :: (0 <= k < |rows| && (rows[k].repositoryId != repositoryId || rows[k].number != p.number)) ==> r[k] == rows[k]
    ensures exists k :: 0 <= k < |r| && MirrorsPull(r[k], repositoryId, p, links)
  {
    var k := Collections.FirstWhere(rows, IsPullKey(repositoryId, p.number));
    if k < |rows| then
      var row := rows[k].(title := p.title, state := p.state, closedAtGitHub := p.closedAt,
        linkedStoryId := links.storyId, linkedTaskId := links.taskId);
      assert MirrorsPull(rows[k := row][k], repositoryId, p, links);
      rows[k := row]
    else
      assert MirrorsPull((rows + [NewPull(newId, repositoryId, p, links)])[|rows|], repositoryId, p, links);
      rows + [NewPull(newId, repositoryId, p, links)]
  }

  /** The pull-request loop of `syncRepository`. */
  function SavedPulls(rows: seq<PullRequest>, repositoryId: Id, fetched: seq<RemotePull>, links: seq<Links>, ids: seq<Id>): (r: seq<PullRequest>)
    requires |links| == |fetched| && |ids| == |fetched|
    ensures |rows| <= |r| <= |rows| + |fetched|
    decreases |fetched|
  {
    if fetched == [] then rows
    else
      var n := |fetched| - 1;
      UpsertPull(SavedPulls(rows, repositoryId, fetched[..n], links[..n], ids[..n]), repositoryId, fetched[n], links[n], ids[n])
  }

  /** One more turn of the pull-request loop. */
  lemma SavedPullsStep(rows: seq<PullRequest>, repositoryId: Id, fetched: seq<RemotePull>, links: seq<Links>, ids: seq<Id>, k: nat)
    requires |links| == |fetched| && |ids| == |fetched| && k < |fetched|
    ensures SavedPulls(rows, repositoryId, fetched[..k + 1], links[..k + 1], ids[..k + 1])
      == UpsertPull(SavedPulls(rows, repositoryId, fetched[..k], links[..k], ids[..k]), repositoryId, fetched[k], links[k], ids[k])
  {
    assert fetched[..k + 1][..k] == fetched[..k] && links[..k + 1][..k] == links[..k] && ids[..k + 1][..k] == ids[..k];
  }

  predicate FreshPullIds(rows: seq<PullRequest>, ids: seq<Id>) {
    Collections.NoDuplicates(ids) && forall k :: 0 <= k < |ids| ==> !PullIdUsed(rows, ids[k])
  }

  /** The loop never drops or re-keys a row, only refreshes the repository's rows and
      appends new rows for it. */
  lemma {:induction false} SavedPullsKeep(rows: seq<PullRequest>, repositoryId: Id, fetched: seq<RemotePull>, links: seq<Links>, ids: seq<Id>)
    requires |links| == |fetched| && |ids| == |fetched|
    ensures var r := SavedPulls(rows, repositoryId, fetched, links, ids);
      |rows| <= |r| <= |rows| + |fetched|
      && (forall k :: 0 <= k < |rows| ==> SamePull(rows[k], r[k]))
      && (forall k :: 0 <= k < |rows| && rows[k].repositoryId != repositoryId ==> r[k] == rows[k])
      && (forall k :: |rows| <= k < |r| ==> r[k].repositoryId == repositoryId)
    decreases |fetched|
  {
    if fetched != [] {
      var n := |fetched| - 1;
      SavedPullsKeep(rows, repositoryId, fetched[..n], links[..n], ids[..n]);
    }
  }

  /** Every row the loop adds takes its id from `ids`. */
  lemma {:induction false} SavedPullIds(rows: seq<PullRequest>, repositoryId: Id, fetched: seq<RemotePull>, links: seq<Links>, ids: seq<Id>)
    requires |links| == |fetched| && |ids| == |fetched|
    ensures var r := SavedPulls(rows, repositoryId, fetched, links, ids);
      forall k :: |rows| <= k < |r| ==> r[k].id in ids
    decreases |fetched|
  {
    if fetched != [] {
      var n := |fetched| - 1;
      SavedPullIds(rows, repositoryId, fetched[..n], links[..n], ids[..n]);
      SavedPullsKeep(rows, repositoryId, fetched[..n], links[..n], ids[..n]);
    }
  }

  /** The id the loop offers the n-th pull request is unused when it comes up. */
  lemma NextPullIdFresh(rows: seq<PullRequest>, repositoryId: Id, fetched: seq<RemotePull>, links: seq<Links>, ids: seq<Id>)
    requires |links| == |fetched| && |ids| == |fetched| && fetched != []
    requires FreshPullIds(rows, ids)
    ensures var n := |fetched| - 1;
      !PullIdUsed(SavedPulls(rows, repositoryId, fetched[..n], links[..n], ids[..n]), ids[n])
  {
    var n := |fetched| - 1;
    var prev := SavedPulls(rows, repositoryId, fetched[..n], links[..n], ids[..n]);
    SavedPullsKeep(rows, repositoryId, fetched[..n], links[..n], ids[..n]);
    SavedPullIds(rows, repositoryId, fetched[..n], links[..n], ids[..n]);
    forall k | 0 <= k < |prev| ensures prev[k].id != ids[n] {
      if k < |rows| {
        assert SamePull(rows[k], prev[k]);
        assert !PullIdUsed(rows, ids[n]);
      } else {
        assert prev[k].id in ids[..n];
      }
    }
  }

  /** One upsert keeps the unique index, and the unique ids when the new id is fresh. */
  lemma UpsertPullUnique(rows: seq<PullRequest>, repositoryId: Id, p: RemotePull, links: Links, newId: Id)
    requires UniquePullKeys(rows) && UniquePullIds(rows)
    requires !HasPull(rows, repositoryId, p.number) ==> !PullIdUsed(rows, newId)
    ensures UniquePullKeys(UpsertPull(rows, repositoryId, p, links, newId))
    ensures UniquePullIds(UpsertPull(rows, repositoryId, p, links, newId))
  {
    var r := UpsertPull(rows, repositoryId, p, links, newId);
    assert forall k :: 0 <= k < |rows| ==> SamePull(rows[k], r[k]);
    if !HasPull(rows, repositoryId, p.number) {
      assert r[|rows|] == NewPull(newId, repositoryId, p, links);
    }
  }

  /** The loop keeps the unique index and the unique ids, given fresh ids. */
  lemma {:induction false} SavedPullsUnique(rows: seq<PullRequest>, repositoryId: Id, fetched: seq<RemotePull>, links: seq<Links>, ids: seq<Id>)
    requires |links| == |fetched| && |ids| == |fetched|
    requires UniquePullKeys(rows) && UniquePullIds(rows) && FreshPullIds(rows, ids)
    ensures UniquePullKeys(SavedPulls(rows, repositoryId, fetched, links, ids))
    ensures UniquePullIds(SavedPulls(rows, repositoryId, fetched, links, ids))
    decreases |fetched|
  {
    if fetched != [] {
      var n := |fetched| - 1;
      var prev := SavedPulls(rows, repositoryId, fetched[..n], links[..n], ids[..n]);
      assert FreshPullIds(rows, ids[..n]);
      SavedPullsUnique(rows, repositoryId, fetched[..n], links[..n], ids[..n]);
      NextPullIdFresh(rows, repositoryId, fetched, links, ids);
      UpsertPullUnique(prev, repositoryId, fetched[n], links[n], ids[n]);
    }
  }

  /** Every fetched pull request ends up stored for the repository. */
  lemma {:induction false} SavedPullsStored(rows: seq<PullRequest>, repositoryId: Id, fetched: seq<RemotePull>, links: seq<Links>, ids: seq<Id>)
    requires |links| == |fetched| && |ids| == |fetched|
    ensures forall i :: 0 <= i < |fetched| ==> HasPull(SavedPulls(rows, repositoryId, fetched, links, ids), repositoryId, fetched[i].number)
    decreases |fetched|
  {
    if fetched != [] {
      var n := |fetched| - 1;
      var prev := SavedPulls(rows, repositoryId, fetched[..n], links[..n], ids[..n]);
      SavedPullsStored(rows, repositoryId, fetched[..n], links[..n], ids[..n]);
      var r := SavedPulls(rows, repositoryId, fetched, links, ids);
      forall i | 0 <= i < |fetched| ensures HasPull(r, repositoryId, fetched[i].number) {
        if i < n {
          assert fetched[..n][i] == fetched[i];
          var k :| 0 <= k < |prev| && prev[k].repositoryId == repositoryId && prev[k].number == fetched[i].number;
          assert SamePull(prev[k], r[k]);
        }
      }
    }
  }

  // ---------------------------------------------------------------------------------
  // Synchronisation runs and reads

  datatype SyncStatus = SUCCESS | ERROR

  /** A row of the synchronisation log. */
  datatype SyncLog = SyncLog(
    repositoryId: Id,
    userId: Id,
    status: SyncStatus,
    commitsFound: nat,
    prsFound: nat,
    errorMessage: Option<string>,
    executedAt: int)

  const InvalidUrl: string := "invalid repository URL"

  /** The sort and filter keys of the reads. */
  function CommittedAt(c: Commit): int { c.committedAt }
  function CommitRepository(c: Commit): Id { c.repositoryId }
  function CommitStory(c: Commit): Option<Id> { c.linkedStoryId }
  function CommitTask(c: Commit): Option<Id> { c.linkedTaskId }
  function PullCreatedAt(p: PullRequest): int { p.createdAtGitHub }
  function PullRepository(p: PullRequest): Id { p.repositoryId }
  function PullStory(p: PullRequest): Option<Id> { p.linkedStoryId }
  function PullTask(p: PullRequest): Option<Id> { p.linkedTaskId }
  function ExecutedAt(l: SyncLog): int { l.executedAt }
  function LogRepository(l: SyncLog): Id { l.repositoryId }

  /** `repository.findUnique({ where: { id } })`. */
  function RepositoryById(rows: seq<Repository>, id: Id): (r: Option<Repository>)
    ensures r.Some? <==> exists k :: 0 <= k < |rows| && rows[k].id == id
    ensures r.Some? ==> r.value in rows && r.value.id == id
  {
    if rows == [] then None
    else if rows[0].id == id then Some(rows[0])
    else RepositoryById(rows[1..], id)
  }

  /** `verifyRepositoryAccess`: an unknown repository is NotFound, then the read-access rule
      of its project applies. */
  function RepositoryAccess(projects: map<Id, Project>, rows: seq<Repository>, repositoryId: Id, userId: Id): (r: Result<Repository, Failure>)
    ensures RepositoryById(rows, repositoryId).None? ==> r.Err? && r.error.NotFound?
    ensures r.Ok? <==> (RepositoryById(rows, repositoryId).Some?
      && VerifyAccess(projects, RepositoryById(rows, repositoryId).value.projectId, userId).Ok?)
    ensures r.Ok? ==> r.value == RepositoryById(rows, repositoryId).value
  {
    var repo := RepositoryById(rows, repositoryId);
    if repo.None? then Err(NotFound("repository"))
    else
      var access := VerifyAccess(projects, repo.value.projectId, userId);
      if access.Err? then Err(access.error) else Ok(repo.value)
  }

  /** The guards of `syncRepository`: access, then only the owner, the scrum master or the
      product owner, then only a repository whose synchronisation is enabled. */
  function SyncCheck(projects: map<Id, Project>, rows: seq<Repository>, repositoryId: Id, userId: Id): (r: Result<Repository, Failure>)
    ensures r.Ok? <==> (RepositoryById(rows, repositoryId).Some?
      && RepositoryById(rows, repositoryId).value.projectId in projects
      && IsManager(projects[RepositoryById(rows, repositoryId).value.projectId], userId)
      && RepositoryById(rows, repositoryId).value.syncEnabled)
    ensures r.Ok? ==> r.value == RepositoryById(rows, repositoryId).value
    ensures RepositoryById(rows, repositoryId).None? ==> r.Err? && r.error.NotFound?
    ensures (RepositoryById(rows, repositoryId).Some? && RepositoryById(rows, repositoryId).value.projectId in projects
      && !IsManager(projects[RepositoryById(rows, repositoryId).value.projectId], userId)) ==> r.Err? && r.error.Forbidden?
    ensures (RepositoryById(rows, repositoryId).Some? && RepositoryById(rows, repositoryId).value.projectId in projects
      && IsManager(projects[RepositoryById(rows, repositoryId).value.projectId], userId)
      && !RepositoryById(rows, repositoryId).value.syncEnabled) ==> r.Err? && r.error.BadRequest?
  {
    var access := RepositoryAccess(projects, rows, repositoryId, userId);
    var repo := RepositoryById(rows, repositoryId);
    assert (repo.Some? && repo.value.projectId in projects && IsManager(projects[repo.value.projectId], userId)) ==> access.Ok? by {
      if repo.Some? && repo.value.projectId in projects && IsManager(projects[repo.value.projectId], userId) {
        RoleImpliesAccess(projects[repo.value.projectId], userId);
      }
    }
    if access.Err? then Err(access.error)
    else if !IsManager(projects[access.value.projectId], userId) then Err(Forbidden("only the scrum master, the product owner or the owner may synchronise"))
    else if !access.value.syncEnabled then Err(BadRequest("synchronisation is disabled for this repository"))
    else Ok(access.value)
  }

  /** `branch || repository.mainBranch`: an absent or empty branch means the main branch. */
  function TargetBranch(branch: Option<string>, mainBranch: string): (b: string)
    ensures b == mainBranch || (branch.Some? && b == branch.value && b != "")
  {
    if branch.Some? && branch.value != "" then branch.value else mainBranch
  }

  /** `repository.update({ where: { id }, data: { lastSyncAt: now } })`. */
  function MarkSynced(rows: seq<Repository>, id: Id, now: int): (r: seq<Repository>)
    ensures |r| == |rows|
    ensures forall k :: 0 <= k < |rows| ==> r[k] == if rows[k].id == id then rows[k].(lastSyncAt := Some(now)) else rows[k]
  {
    if rows == [] then []
    else [if rows[0].id == id then rows[0].(lastSyncAt := Some(now)) else rows[0]] + MarkSynced(rows[1..], id, now)
  }

  /** Stamping the synchronisation time keeps the repository table's keys and its single
      primary repository per project. */
  lemma MarkSyncedKeeps(rows: seq<Repository>, id: Id, now: int)
    requires ValidTable(rows)
    ensures ValidTable(MarkSynced(rows, id, now))
    ensures forall k :: 0 <= k < |rows| ==> MarkSynced(rows, id, now)[k].lastSyncAt == (if rows[k].id == id then Some(now) else rows[k].lastSyncAt)
  {
    var r := MarkSynced(rows, id, now);
    assert forall k :: 0 <= k < |rows| ==> (r[k].id == rows[k].id && r[k].projectId == rows[k].projectId
      && r[k].url == rows[k].url && r[k].isPrimary == rows[k].isPrimary);
  }

  /** What `getStoryGitHubActivity` and `getTaskGitHubActivity` return. */
  datatype Activity = Activity(code: string, commits: seq<Commit>, pulls: seq<PullRequest>)

  /** `linkCommit`'s checks: the commit exists, and a given story or task belongs to the
      commit's project. */
  function LinkCheck(commits: seq<Commit>, repositories: seq<Repository>, stories: seq<Story>, tasks: seq<Task>,
                     commitId: Id, storyId: Option<Id>, taskId: Option<Id>): (r: Result<nat, Failure>)
    ensures r.Ok? ==> (r.value < |commits| && commits[r.value].id == commitId
      && (forall j :: 0 <= j < r.value ==> commits[j].id != commitId))
    ensures r.Ok? ==> RepositoryById(repositories, commits[r.value].repositoryId).Some?
    ensures r.Ok? && Given(storyId).Some? ==>
      StoryInProject(stories, storyId.value, RepositoryById(repositories, commits[r.value].repositoryId).value.projectId)
    ensures r.Ok? && Given(taskId).Some? ==>
      TaskInProject(tasks, stories, taskId.value, RepositoryById(repositories, commits[r.value].repositoryId).value.projectId)
    ensures (forall k :: 0 <= k < |commits| ==> commits[k].id != commitId) ==> r.Err? && r.error.NotFound?
    ensures r.Err? ==> r.error.NotFound? || r.error.BadRequest?
    ensures forall k ::
        (0 <= k < |commits| && commits[k].id == commitId
        && (forall j :: 0 <= j < k ==> commits[j].id != commitId)
        && RepositoryById(repositories, commits[k].repositoryId).Some?
        && (Given(storyId).Some? ==> StoryInProject(stories, storyId.value, RepositoryById(repositories, commits[k].repositoryId).value.projectId))
        && (Given(taskId).Some? ==> TaskInProject(tasks, stories, taskId.value, RepositoryById(repositories, commits[k].repositoryId).value.projectId))) ==> r == Ok(k)
  {
    var k := Collections.FirstWhere(commits, IsCommitId(commitId));
    if k == |commits| then Err(NotFound("commit"))
    else
      var repo := RepositoryById(repositories, commits[k].repositoryId);
      if repo.None? then Err(NotFound("repository"))
      else if Given(storyId).Some? && !StoryInProject(stories, storyId.value, repo.value.projectId) then
        Err(BadRequest("the story does not belong to this project"))
      else if Given(taskId).Some? && !TaskInProject(tasks, stories, taskId.value, repo.value.projectId) then
        Err(BadRequest("the task does not belong to this project"))
      else Ok(k)
  }

  function IsCommitId(id: Id): Commit -> bool {
    (c: Commit) => c.id == id
  }

  /** A JavaScript truthiness test on an optional id: absent and empty are both "not given". */
  function Given(id: Option<Id>): (r: Option<Id>)
    ensures r.Some? <==> id.Some? && id.value != ""
    ensures r.Some? ==> r == id
  {
    if id.Some? && id.value != "" then id else None
  }

  /** `userStory.findFirst({ where: { id, projectId } })` finds a row. */
  predicate StoryInProject(stories: seq<Story>, storyId: Id, projectId: Id) {
    exists k :: 0 <= k < |stories| && stories[k].id == storyId && stories[k].projectId == projectId
  }

  /** `task.findFirst({ where: { id, story: { projectId } } })` finds a row. */
  predicate TaskInProject(tasks: seq<Task>, stories: seq<Story>, taskId: Id, projectId: Id) {
    exists k :: 0 <= k < |tasks| && tasks[k].id == taskId && InProject(stories, tasks[k].storyId, projectId)
  }

  // ---------------------------------------------------------------------------------
  // The service

  /** `GitHubSyncService` over its tables. The projects, stories and tasks are only read. */
  class GitHubSyncService {
    const projects: map<Id, Project>
    const stories: seq<Story>
    const tasks: seq<Task>
    var repositories: seq<Repository>
    var commits: seq<Commit>
    var pulls: seq<PullRequest>
    var logs: seq<SyncLog>

    /** The unique indexes of the tables. */
    predicate Valid()
      reads this
    {
      ValidTable(repositories) && UniqueCommitKeys(commits) && UniqueCommitIds(commits)
      && UniquePullKeys(pulls) && UniquePullIds(pulls)
    }

    constructor(projects: map<Id, Project>, stories: seq<Story>, tasks: seq<Task>, repositories: seq<Repository>)
      requires ValidTable(repositories)
      ensures Valid()
      ensures this.projects == projects && this.stories == stories && this.tasks == tasks
      ensures this.repositories == repositories && commits == [] && pulls == [] && logs == []
    {
      this.projects := projects;
      this.stories := stories;
      this.tasks := tasks;
      this.repositories := repositories;
      commits := [];
      pulls := [];
      logs := [];
    }

    /** `syncRepository`. What GitHub answers for the repository's owner, name and branch is
        given: the commits listing and the pull-request listing, each either rows or the
        error message of the failed request. A run that passes the guards always leaves a
        log row; the commits are stored before the pull requests are fetched, so a failed
        pull-request request keeps them. */
    method SyncRepository(repositoryId: Id, userId: Id, branch: Option<string>, now: int,
        fetchedCommits: Result<seq<RemoteCommit>, string>, fetchedPulls: Result<seq<RemotePull>, string>,
        commitIds: seq<Id>, pullIds: seq<Id>) returns (r: Result<SyncLog, Failure>)
      requires Valid()
      requires fetchedCommits.Ok? ==> |commitIds| == |fetchedCommits.value| && FreshCommitIds(commits, commitIds)
      requires fetchedPulls.Ok? ==> |pullIds| == |fetchedPulls.value| && FreshPullIds(pulls, pullIds)
      modifies this
      ensures Valid()
      ensures r.Err? <==> SyncCheck(projects, old(repositories), repositoryId, userId).Err?
      ensures r.Err? ==> (r.error == SyncCheck(projects, old(repositories), repositoryId, userId).error
        && repositories == old(repositories) && commits == old(commits) && pulls == old(pulls) && logs == old(logs))
      ensures r.Ok? ==> (logs == old(logs) + [r.value]
        && r.value.repositoryId == repositoryId && r.value.userId == userId && r.value.executedAt == now)
      ensures r.Ok? ==>
        var repo := SyncCheck(projects, old(repositories), repositoryId, userId).value;
        var urlOk := ParseRepoUrl(repo.url, 0).Some?;
        var t := Target(repositoryId, repo.projectId, TargetBranch(branch, repo.mainBranch));
        (r.value.status == SUCCESS <==> urlOk && fetchedCommits.Ok? && fetchedPulls.Ok?)
        && (!urlOk ==> r.value.errorMessage == Some(InvalidUrl) && r.value.commitsFound == 0 && r.value.prsFound == 0)
        && (urlOk && fetchedCommits.Err? ==> r.value.errorMessage == Some(fetchedCommits.error) && r.value.commitsFound == 0 && r.value.prsFound == 0)
        && (urlOk && fetchedCommits.Ok? ==> (r.value.commitsFound == |fetchedCommits.value|
          && commits == SavedCommits(old(commits), t, fetchedCommits.value,
            MessageLinks(stories, tasks, repo.projectId, Messages(fetchedCommits.value)), commitIds)))
        && (urlOk && fetchedCommits.Ok? && fetchedPulls.Err? ==> r.value.errorMessage == Some(fetchedPulls.error) && r.value.prsFound == 0)
        && (r.value.status == SUCCESS ==> (r.value.errorMessage.None? && r.value.prsFound == |fetchedPulls.value|
          && pulls == SavedPulls(old(pulls), repositoryId, fetchedPulls.value,
            MessageLinks(stories, tasks, repo.projectId, Titles(fetchedPulls.value)), pullIds)
          && repositories == MarkSynced(old(repositories), repositoryId, now)))
        && (!(urlOk && fetchedCommits.Ok?) ==> commits == old(commits))
        && (r.value.status == ERROR ==> pulls == old(pulls) && repositories == old(repositories))
    {
      var check := SyncCheck(projects, repositories, repositoryId, userId);
      if check.Err? {
        return Err(check.error);
      }
      var repo := check.value;
      var log := SyncLog(repositoryId, userId, SUCCESS, 0, 0, None, now);
      if ParseRepoUrl(repo.url, 0).None? {
        log := log.(status := ERROR, errorMessage := Some(InvalidUrl));
      } else if fetchedCommits.Err? {
        log := log.(status := ERROR, errorMessage := Some(fetchedCommits.error));
      } else {
        var cs := fetchedCommits.value;
        var t := Target(repositoryId, repo.projectId, TargetBranch(branch, repo.mainBranch));
        var links := MessageLinks(stories, tasks, repo.projectId, Messages(cs));
        SavedCommitsUnique(commits, t, cs, links, commitIds);
        commits := UpsertCommits(commits, t, cs, links, commitIds);
        log := log.(commitsFound := |cs|);
        if fetchedPulls.Err? {
          log := log.(status := ERROR, errorMessage := Some(fetchedPulls.error));
        } else {
          var ps := fetchedPulls.value;
          var titleLinks := MessageLinks(stories, tasks, repo.projectId, Titles(ps));
          SavedPullsUnique(pulls, repositoryId, ps, titleLinks, pullIds);
          pulls := UpsertPulls(pulls, repositoryId, ps, titleLinks, pullIds);
          MarkSyncedKeeps(repositories, repositoryId, now);
          repositories := MarkSynced(repositories, repositoryId, now);
          log := log.(prsFound := |ps|);
        }
      }
      logs := logs + [log];
      r := Ok(log);
    }

    /** `getRepositoryCommits`: the repository's 100 most recent commits, newest first. */
    method GetRepositoryCommits(repositoryId: Id, userId: Id) returns (r: Result<seq<Commit>, Failure>)
      ensures r.Err? <==> RepositoryAccess(projects, repositories, repositoryId, userId).Err?
      ensures r.Err? ==> r.error == RepositoryAccess(projects, repositories, repositoryId, userId).error
      ensures r.Ok? ==> |r.value| <= 100 && Collections.SortedDesc(r.value, CommittedAt)
      ensures r.Ok? ==> forall k :: 0 <= k < |r.value| ==> r.value[k] in commits && r.value[k].repositoryId == repositoryId
      ensures r.Ok? ==> multiset(r.value) <= multiset(Collections.Where(commits, CommitRepository, repositoryId))
      ensures r.Ok? ==> forall k :: (0 <= k < |commits| && commits[k].repositoryId == repositoryId && commits[k] !in r.value) ==>
        (|r.value| == 100 && forall j :: 0 <= j < |r.value| ==> CommittedAt(r.value[j]) >= CommittedAt(commits[k]))
    {
      var access := RepositoryAccess(projects, repositories, repositoryId, userId);
      if access.Err? {
        return Err(access.error);
      }
      r := Ok(Collections.Page(commits, CommitRepository, repositoryId, CommittedAt, 100));
    }

    /** `getRepositoryPullRequests`: the repository's 50 most recently opened pull requests,
        newest first. */
    method GetRepositoryPullRequests(repositoryId: Id, userId: Id) returns (r: Result<seq<PullRequest>, Failure>)
      ensures r.Err? <==> RepositoryAccess(projects, repositories, repositoryId, userId).Err?
      ensures r.Err? ==> r.error == RepositoryAccess(projects, repositories, repositoryId, userId).error
      ensures r.Ok? ==> |r.value| <= 50 && Collections.SortedDesc(r.value, PullCreatedAt)
      ensures r.Ok? ==> forall k :: 0 <= k < |r.value| ==> r.value[k] in pulls && r.value[k].repositoryId == repositoryId
      ensures r.Ok? ==> multiset(r.value) <= multiset(Collections.Where(pulls, PullRepository, repositoryId))
      ensures r.Ok? ==> forall k :: (0 <= k < |pulls| && pulls[k].repositoryId == repositoryId && pulls[k] !in r.value) ==>
        (|r.value| == 50 && forall j :: 0 <= j < |r.value| ==> PullCreatedAt(r.value[j]) >= PullCreatedAt(pulls[k]))
    {
      var access := RepositoryAccess(projects, repositories, repositoryId, userId);
      if access.Err? {
        return Err(access.error);
      }
      r := Ok(Collections.Page(pulls, PullRepository, repositoryId, PullCreatedAt, 50));
    }

    /** `getSyncLogs`: the repository's 20 latest runs, latest first. */
    method GetSyncLogs(repositoryId: Id, userId: Id) returns (r: Result<seq<SyncLog>, Failure>)
      ensures r.Err? <==> RepositoryAccess(projects, repositories, repositoryId, userId).Err?
      ensures r.Err? ==> r.error == RepositoryAccess(projects, repositories, repositoryId, userId).error
      ensures r.Ok? ==> |r.value| <= 20 && Collections.SortedDesc(r.value, ExecutedAt)
      ensures r.Ok? ==> forall k :: 0 <= k < |r.value| ==> r.value[k] in logs && r.value[k].repositoryId == repositoryId
      ensures r.Ok? ==> multiset(r.value) <= multiset(Collections.Where(logs, LogRepository, repositoryId))
      ensures r.Ok? ==> forall k :: (0 <= k < |logs| && logs[k].repositoryId == repositoryId && logs[k] !in r.value) ==>
        (|r.value| == 20 && forall j :: 0 <= j < |r.value| ==> ExecutedAt(r.value[j]) >= ExecutedAt(logs[k]))
    {
      var access := RepositoryAccess(projects, repositories, repositoryId, userId);
      if access.Err? {
        return Err(access.error);
      }
      r := Ok(Collections.Page(logs, LogRepository, repositoryId, ExecutedAt, 20));
    }

    /** `getStoryGitHubActivity`: every commit and pull request linked to the story, newest
        first, for a caller the story's project admits. */
    method GetStoryGitHubActivity(storyId: Id, userId: Id) returns (r: Result<Activity, Failure>)
      ensures FindStory(stories, storyId).None? ==> r.Err? && r.error.NotFound?
      ensures r.Ok? <==> FindStory(stories, storyId).Some? && VerifyAccess(projects, FindStory(stories, storyId).value.projectId, userId).Ok?
      ensures r.Ok? ==> r.value.code == FindStory(stories, storyId).value.code
      ensures r.Ok? ==> (multiset(r.value.commits) == multiset(Collections.Where(commits, CommitStory, Some(storyId)))
        && Collections.SortedDesc(r.value.commits, CommittedAt))
      ensures r.Ok? ==> (multiset(r.value.pulls) == multiset(Collections.Where(pulls, PullStory, Some(storyId)))
        && Collections.SortedDesc(r.value.pulls, PullCreatedAt))
    {
      var story := FindStory(stories, storyId);
      if story.None? {
        return Err(NotFound("story"));
      }
      var access := VerifyAccess(projects, story.value.projectId, userId);
      if access.Err? {
        return Err(access.error);
      }
      r := Ok(Activity(story.value.code,
        Collections.SortDesc(Collections.Where(commits, CommitStory, Some(storyId)), CommittedAt),
        Collections.SortDesc(Collections.Where(pulls, PullStory, Some(storyId)), PullCreatedAt)));
    }

    /** `getTaskGitHubActivity`: the same for a task, whose project is its story's. */
    method GetTaskGitHubActivity(taskId: Id, userId: Id) returns (r: Result<Activity, Failure>)
      ensures FindTask(tasks, taskId).None? ==> r.Err? && r.error.NotFound?
      ensures r.Ok? <==> (FindTask(tasks, taskId).Some? && FindStory(stories, FindTask(tasks, taskId).value.storyId).Some?
        && VerifyAccess(projects, FindStory(stories, FindTask(tasks, taskId).value.storyId).value.projectId, userId).Ok?)
      ensures r.Ok? ==> r.value.code == FindTask(tasks, taskId).value.code
      ensures r.Ok? ==> (multiset(r.value.commits) == multiset(Collections.Where(commits, CommitTask, Some(taskId)))
        && Collections.SortedDesc(r.value.commits, CommittedAt))
      ensures r.Ok? ==> (multiset(r.value.pulls) == multiset(Collections.Where(pulls, PullTask, Some(taskId)))
        && Collections.SortedDesc(r.value.pulls, PullCreatedAt))
    {
      var task := FindTask(tasks, taskId);
      if task.None? {
        return Err(NotFound("task"));
      }
      var story := FindStory(stories, task.value.storyId);
      if story.None? {
        return Err(NotFound("story"));
      }
      var access := VerifyAccess(projects, story.value.projectId, userId);
      if access.Err? {
        return Err(access.error);
      }
      r := Ok(Activity(task.value.code,
        Collections.SortDesc(Collections.Where(commits, CommitTask, Some(taskId)), CommittedAt),
        Collections.SortDesc(Collections.Where(pulls, PullTask, Some(taskId)), PullCreatedAt)));
    }

    /** `linkCommit`: sets the commit's story and task by hand; an omitted or empty id clears
        that link. */
    method LinkCommit(commitId: Id, storyId: Option<Id>, taskId: Option<Id>) returns (r: Result<Commit, Failure>)
      requires Valid()
      modifies this
      ensures Valid()
      ensures r.Err? <==> LinkCheck(old(commits), repositories, stories, tasks, commitId, storyId, taskId).Err?
      ensures r.Err? ==> (r.error == LinkCheck(old(commits), repositories, stories, tasks, commitId, storyId, taskId).error
        && commits == old(commits))
      ensures r.Ok? ==>
        var k := LinkCheck(old(commits), repositories, stories, tasks, commitId, storyId, taskId).value;
        r.value == old(commits)[k].(linkedStoryId := Given(storyId), linkedTaskId := Given(taskId))
        && commits == old(commits)[k := r.value]
      ensures repositories == old(repositories) && pulls == old(pulls) && logs == old(logs)
    {
      var check := LinkCheck(commits, repositories, stories, tasks, commitId, storyId, taskId);
      if check.Err? {
        return Err(check.error);
      }
      var k := check.value;
      var row := commits[k].(linkedStoryId := Given(storyId), linkedTaskId := Given(taskId));
      assert SameCommit(commits[k], row);
      commits := commits[k := row];
      r := Ok(row);
    }
  }

  /** The commit loop of `syncRepository`, run on the table's rows. */
  method UpsertCommits(rows: seq<Commit>, t: Target, fetched: seq<RemoteCommit>, links: seq<Links>, ids: seq<Id>) returns (r: seq<Commit>)
    requires |links| == |fetched| && |ids| == |fetched|
    ensures r == SavedCommits(rows, t, fetched, links, ids)
  {
    r := rows;
    var k := 0;
    while k < |fetched|
      invariant 0 <= k <= |fetched|
      invariant r == SavedCommits(rows, t, fetched[..k], links[..k], ids[..k])
    {
      SavedCommitsStep(rows, t, fetched, links, ids, k);
      r := UpsertCommit(r, t.repositoryId, fetched[k], t.branch, links[k], ids[k]);
      k := k + 1;
    }
    WholeSequences(fetched, links, ids);
  }

  /** The pull-request loop of `syncRepository`, run on the table's rows. */
  method UpsertPulls(rows: seq<PullRequest>, repositoryId: Id, fetched: seq<RemotePull>, links: seq<Links>, ids: seq<Id>) returns (r: seq<PullRequest>)
    requires |links| == |fetched| && |ids| == |fetched|
    ensures r == SavedPulls(rows, repositoryId, fetched, links, ids)
  {
    r := rows;
    var k := 0;
    while k < |fetched|
      invariant 0 <= k <= |fetched|
      invariant r == SavedPulls(rows, repositoryId, fetched[..k], links[..k], ids[..k])
    {
      SavedPullsStep(rows, repositoryId, fetched, links, ids, k);
      r := UpsertPull(r, repositoryId, fetched[k], links[k], ids[k]);
      k := k + 1;
    }
    WholeSequences(fetched, links, ids);
  }

  lemma WholeSequences<A, B, C>(xs: seq<A>, ys: seq<B>, zs: seq<C>)
    ensures xs[..|xs|] == xs && ys[..|ys|] == ys && zs[..|zs|] == zs
  {
  }

  function Messages(cs: seq<RemoteCommit>): (r: seq<string>)
    ensures |r| == |cs| && forall k :: 0 <= k < |cs| ==> r[k] == cs[k].message
  {
    seq(|cs|, k requires 0 <= k < |cs| => cs[k].message)
  }

  function Titles(ps: seq<RemotePull>): (r: seq<string>)
    ensures |r| == |ps| && forall k :: 0 <= k < |ps| ==> r[k] == ps[k].title
  {
    seq(|ps|, k requires 0 <= k < |ps| => ps[k].title)
  }
}
