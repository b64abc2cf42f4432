/** Synchronisation of a project's GitHub repositories: the commits and pull requests
    fetched from GitHub are stored per repository, each linked automatically to the story
    and the task its text mentions; every run that passes the guards leaves a log row.
    The GitHub API is not called here: what it answered is a parameter of the run. */
module GitHubSync {
  import opened Wrappers
  import opened Scrum
  import opened Backlog
  import opened Repositories
  import Text
  import Collections

  // ---------------------------------------------------------------------------------
  // The repository URL

  const Host: string := "github.com/"

  /** Length of the run of characters other than `/` at the head of `s` (a greedy `[^/]+`). */
  function SegmentLength(s: string): (n: nat)
    ensures n <= |s| && '/' !in s[..n]
    ensures n == |s| || s[n] == '/'
  {
    if s == [] || s[0] == '/' then 0
    else
      var n := 1 + SegmentLength(s[1..]);
      assert s[..n] == [s[0]] + s[1..][..n - 1];
      n
  }

  /** `github\.com\/([^/]+)\/([^/]+)` tried at position i: the owner and the repository name. */
  function UrlMatchAt(s: string, i: nat): (r: Option<(string, string)>)
    requires i <= |s|
    ensures r.Some? ==> r.value.0 != [] && r.value.1 != [] && '/' !in r.value.0 && '/' !in r.value.1
  {
    if !Text.OccursAt(s, Host, i) then None else Segments(s[i + |Host|..])
  }

  /** `([^/]+)\/([^/]+)` at the head of `t`. */
  function Segments(t: string): (r: Option<(string, string)>)
    ensures r.Some? ==> r.value.0 != [] && r.value.1 != [] && '/' !in r.value.0 && '/' !in r.value.1
  {
    var n := SegmentLength(t);
    if n == 0 || n == |t| then None
    else
      var u := t[n + 1..];
      var m := SegmentLength(u);
      if m == 0 then None else Some((t[..n], u[..m]))
  }

  /** `url.match(...)` from position i on: the leftmost match. */
  function ParseRepoUrl(s: string, i: nat): (r: Option<(string, string)>)
    requires i <= |s|
    ensures r.Some? ==> r.value.0 != [] && r.value.1 != [] && '/' !in r.value.0 && '/' !in r.value.1
    decreases |s| - i
  {
    var here := UrlMatchAt(s, i);
    if here.Some? then here
    else if i == |s| then None
    else ParseRepoUrl(s, i + 1)
  }

  /** No `g` before position k means no earlier match. */
  lemma {:induction false} ParseSkips(s: string, i: nat, k: nat)
    requires i <= k <= |s| && forall j :: i <= j < k ==> s[j] != 'g'
    ensures ParseRepoUrl(s, i) == ParseRepoUrl(s, k)
    decreases k - i
  {
    if i < k {
      assert !Text.OccursAt(s, Host, i) by {
        if i + |Host| <= |s| { assert s[i..i + |Host|][0] == s[i]; }
      }
      ParseSkips(s, i + 1, k);
    }
  }

  /** Every URL the create form accepts (`https://github.com/<owner>/<name>` with an optional
      trailing slash) yields its owner and name, so synchronisation never reports it invalid. */
  lemma FormUrlParses(owner: string, name: string, slash: bool)
    requires owner != [] && name != [] && '/' !in owner && '/' !in name
    ensures ParseRepoUrl("https://github.com/" + owner + "/" + name + (if slash then "/" else ""), 0) == Some((owner, name))
  {
    var tail := if slash then "/" else "";
    var rest := owner + "/" + name + tail;
    FormUrlShape(owner, name, tail);
    SchemeSkipped("https://", Host + rest);
    MatchAfterHost("https://", rest, owner, name, tail);
  }

  lemma FormUrlShape(owner: string, name: string, tail: string)
    ensures "https://github.com/" + owner + "/" + name + tail == "https://" + (Host + (owner + "/" + name + tail))
  {
  }

  /** A prefix without a `g` is skipped by the search. */
  lemma SchemeSkipped(pre: string, x: string)
    requires forall j :: 0 <= j < |pre| ==> pre[j] != 'g'
    ensures ParseRepoUrl(pre + x, 0) == ParseRepoUrl(pre + x, |pre|)
  {
    ParseSkips(pre + x, 0, |pre|);
  }

  /** After the host, the two path segments are the owner and the name. */
  lemma MatchAfterHost(pre: string, rest: string, owner: string, name: string, tail: string)
    requires rest == owner + "/" + name + tail && (tail == [] || tail[0] == '/')
    requires owner != [] && name != [] && '/' !in owner && '/' !in name
    ensures UrlMatchAt(pre + (Host + rest), |pre|) == Some((owner, name))
  {
    var s := pre + (Host + rest);
    assert s[|pre|..|pre| + |Host|] == Host;
    assert s[|pre| + |Host|..] == rest;
    SegmentsOf(owner, name, tail);
  }

  /** A slash-free owner, a slash, a slash-free name and then a slash or the end are the
      two captured segments. */
  lemma SegmentsOf(owner: string, name: string, tail: string)
    requires (tail == [] || tail[0] == '/')
    requires owner != [] && name != [] && '/' !in owner && '/' !in name
    ensures Segments(owner + "/" + name + tail) == Some((owner, name))
  {
    assert owner + "/" + name + tail == owner + "/" + (name + tail);
    OwnerSegment(owner, name + tail);
    OwnSegment(name, tail);
    assert (name + tail)[..|name|] == name;
  }

  /** A slash-free owner followed by a slash is the first segment, and the rest follows it. */
  lemma OwnerSegment(owner: string, more: string)
    requires '/' !in owner
    ensures var t := owner + "/" + more;
      SegmentLength(t) == |owner| && t[..|owner|] == owner && t[|owner| + 1..] == more
  {
    var t := owner + "/" + more;
    assert t == owner + ("/" + more);
    OwnSegment(owner, "/" + more);
  }

  /** A slash-free prefix followed by a slash or the end is the whole first segment. */
  lemma {:induction false} OwnSegment(a: string, b: string)
    requires '/' !in a && (b == [] || b[0] == '/')
    ensures SegmentLength(a + b) == |a|
  {
    if a != [] {
      assert (a + b)[1..] == a[1..] + b;
      OwnSegment(a[1..], b);
    }
  }

  // ---------------------------------------------------------------------------------
  // Story and task references in a commit message or a pull-request title

  predicate IsSep(c: char) {
    c == '-' || c == '_'
  }

  /** The lower-case keyword `kw` at position i, compared case-insensitively (the `i` flag). */
  predicate KeywordAt(s: string, i: nat, kw: string) {
    i + |kw| <= |s| && forall j :: 0 <= j < |kw| ==> Text.LowerChar(s[i + j]) == kw[j]
  }

  /** `\b` before a word character at position i. */
  predicate WordStart(s: string, i: nat)
    requires i <= |s|
  {
    i == 0 || !Text.IsWordChar(s[i - 1])
  }

  /** `\b` after a word character, where `t` is what follows it. */
  predicate WordEnds(t: string) {
    t == [] || !Text.IsWordChar(t[0])
  }

  /** `(\d+)\b` at the head of `t`: the digits. */
  function DigitsThenBoundary(t: string): (r: Option<string>)
    ensures r.Some? ==> r.value != [] && Text.AllDigits(r.value)
  {
    var n := Text.DigitRunLength(t);
    if n == 0 || !WordEnds(t[n..]) then None else Some(t[..n])
  }

  /** `\b(US|HU|STORY)[-_](\d+)\b` with the `i` flag, tried at position i: the digits. */
  function StoryRefAt(s: string, i: nat): (r: Option<string>)
    requires i <= |s|
    ensures r.Some? ==> r.value != [] && Text.AllDigits(r.value)
  {
    var k := if KeywordAt(s, i, "us") || KeywordAt(s, i, "hu") then 2 else if KeywordAt(s, i, "story") then 5 else 0;
    if k == 0 || !WordStart(s, i) || i + k >= |s| || !IsSep(s[i + k]) then None
    else DigitsThenBoundary(s[i + k + 1..])
  }

  /** `\b#(\d+)\b` tried at position i. `#` is not a word character, so the boundary before
      it needs a word character right before it: `fix#12` matches, `fix #12` does not. */
  function HashRefAt(s: string, i: nat): (r: Option<string>)
    requires i <= |s|
    ensures r.Some? ==> r.value != [] && Text.AllDigits(r.value)
  {
    if i == 0 || i >= |s| || s[i] != '#' || !Text.IsWordChar(s[i - 1]) then None
    else DigitsThenBoundary(s[i + 1..])
  }

  /** The two digit groups of a task reference; the second is optional. */
  datatype TaskRef = TaskRef(first: string, second: Option<string>)

  /** `\b(T|TASK)[-_](\d+)(?:[-_](\d+))?\b` with the `i` flag, tried at position i. */
  function TaskRefAt(s: string, i: nat): (r: Option<TaskRef>)
    requires i <= |s|
    ensures r.Some? ==> r.value.first != [] && Text.AllDigits(r.value.first)
    ensures r.Some? && r.value.second.Some? ==> r.value.second.value != [] && Text.AllDigits(r.value.second.value)
  {
    var k := if KeywordAt(s, i, "t") && i + 1 < |s| && IsSep(s[i + 1]) then 1
             else if KeywordAt(s, i, "task") && i + 4 < |s| && IsSep(s[i + 4]) then 4
             else 0;
    if k == 0 || !WordStart(s, i) then None else TaskNumbers(s[i + k + 1..])
  }

  /** `(\d+)(?:[-_](\d+))?\b` at the head of `t`. When the second group cannot end on a
      boundary the engine drops it and tries the boundary right after the first number
      (which holds before a `-` but not before a `_`). */
  function TaskNumbers(t: string): (r: Option<TaskRef>)
    ensures r.Some? ==> r.value.first != [] && Text.AllDigits(r.value.first)
    ensures r.Some? && r.value.second.Some? ==> r.value.second.value != [] && Text.AllDigits(r.value.second.value)
  {
    var n := Text.DigitRunLength(t);
    if n == 0 then None
    else
      var u := t[n..];
      var second := if |u| >= 2 && IsSep(u[0]) then DigitsThenBoundary(u[1..]) else None;
      if second.Some? then Some(TaskRef(t[..n], second))
      else if WordEnds(u) then Some(TaskRef(t[..n], None))
      else None
  }

  /** The leftmost story reference from position i on (`message.match`). */
  function FirstStoryRef(s: string, i: nat): (r: Option<string>)
    requires i <= |s|
    ensures r.Some? ==> r.value != [] && Text.AllDigits(r.value)
    decreases |s| - i
  {
    var here := StoryRefAt(s, i);
    if here.Some? || i == |s| then here else FirstStoryRef(s, i + 1)
  }

  /** The leftmost `#n` reference from position i on. */
  function FirstHashRef(s: string, i: nat): (r: Option<string>)
    requires i <= |s|
    ensures r.Some? ==> r.value != [] && Text.AllDigits(r.value)
    decreases |s| - i
  {
    var here := HashRefAt(s, i);
    if here.Some? || i == |s| then here else FirstHashRef(s, i + 1)
  }

  /** The leftmost task reference from position i on. */
  function FirstTaskRef(s: string, i: nat): (r: Option<TaskRef>)
    requires i <= |s|
    ensures r.Some? ==> r.value.first != [] && Text.AllDigits(r.value.first)
    decreases |s| - i
  {
    var here := TaskRefAt(s, i);
    if here.Some? || i == |s| then here else FirstTaskRef(s, i + 1)
  }

  /** The text a task's code is searched for: `n`, or `n-m` when there is a second number
      (whatever separator the message used). */
  function TaskKey(ref: TaskRef): (key: string)
    ensures ref.second.None? ==> key == ref.first
    ensures ref.second.Some? ==> key == ref.first + "-" + ref.second.value
  {
    if ref.second.Some? then ref.first + "-" + ref.second.value else ref.first
  }

  /** A message that starts with a task code of two numbers (`T-12-3 fix`, `task_12_3`) is
      searched for `12-3`. */
  lemma TwoNumberTaskRef(kw: string, sep1: char, a: string, sep2: char, b: string, rest: string)
    requires (|kw| == 1 && KeywordAt(kw, 0, "t")) || (|kw| == 4 && KeywordAt(kw, 0, "task"))
    requires IsSep(sep1) && IsSep(sep2)
    requires a != [] && b != [] && Text.AllDigits(a) && Text.AllDigits(b)
    requires WordEnds(rest)
    ensures FirstTaskRef(kw + [sep1] + a + [sep2] + b + rest, 0) == Some(TaskRef(a, Some(b)))
    ensures TaskKey(FirstTaskRef(kw + [sep1] + a + [sep2] + b + rest, 0).value) == a + "-" + b
  {
    var s := kw + [sep1] + a + [sep2] + b + rest;
    var tail := a + [sep2] + b + rest;
    KeywordHead(kw, sep1, a, sep2, b, rest);
    TaskKeywordHead(kw, sep1, tail);
    NumbersAfter(a, sep2, b, rest);
    assert TaskRefAt(s, 0) == Some(TaskRef(a, Some(b)));
  }

  /** The message read as the keyword, the separator and the tail. */
  lemma KeywordHead(kw: string, sep1: char, a: string, sep2: char, b: string, rest: string)
    ensures kw + [sep1] + a + [sep2] + b + rest == kw + [sep1] + (a + [sep2] + b + rest)
  {
  }

  /** A task keyword and a separator at the start hand the rest to the number matcher. */
  lemma TaskKeywordHead(kw: string, sep1: char, tail: string)
    requires (|kw| == 1 && KeywordAt(kw, 0, "t")) || (|kw| == 4 && KeywordAt(kw, 0, "task"))
    requires IsSep(sep1)
    ensures TaskRefAt(kw + [sep1] + tail, 0) == TaskNumbers(tail)
  {
    var s := kw + [sep1] + tail;
    assert s[..|kw|] == kw && s[|kw|] == sep1 && s[|kw| + 1..] == tail;
    if |kw| == 4 {
      assert s[1] == kw[1] && Text.LowerChar(kw[0 + 1]) == "task"[1];
      assert KeywordAt(s, 0, "task");
    } else {
      assert KeywordAt(s, 0, "t");
    }
  }

  /** The two numbers after the separator. */
  lemma NumbersAfter(a: string, sep2: char, b: string, rest: string)
    requires IsSep(sep2) && a != [] && b != [] && Text.AllDigits(a) && Text.AllDigits(b)
    requires WordEnds(rest)
    ensures TaskNumbers(a + [sep2] + b + rest) == Some(TaskRef(a, Some(b)))
  {
    var u := [sep2] + (b + rest);
    var t := a + [sep2] + b + rest;
    assert t == a + u;
    Text.DigitRunOf(a, u);
    assert t[..|a|] == a && t[|a|..] == u;
    assert u[1..] == b + rest;
    Text.DigitRunOf(b, rest);
    assert (b + rest)[..|b|] == b && (b + rest)[|b|..] == rest;
  }

  lemma Reassociate(p: string, a: string, c: char, b: string, r: string)
    ensures p + a + [c] + b + r == p + (a + ([c] + (b + r)))
  {
  }

  // ---------------------------------------------------------------------------------
  // Automatic linking

  /** The story filter of `findStoryByCode`: a story of the project whose code contains the
      key; an undefined key (`contains: undefined`) puts no condition on the code. */
  predicate StoryHasKey(s: Story, projectId: Id, key: Option<string>) {
    s.projectId == projectId && (key.None? || Text.Contains(s.code, key.value))
  }

  /** `userStory.findFirst({ where: { projectId, code: { contains: key } } })`. */
  function StoryWithKey(stories: seq<Story>, projectId: Id, key: Option<string>): (r: Option<Story>)
    ensures r.None? <==> forall k :: 0 <= k < |stories| ==> !StoryHasKey(stories[k], projectId, key)
    ensures r.Some? ==> exists k :: (0 <= k < |stories| && r.value == stories[k] && StoryHasKey(stories[k], projectId, key)
      && forall j :: 0 <= j < k ==> !StoryHasKey(stories[j], projectId, key))
  {
    var k := Collections.FirstWhere(stories, (s: Story) => StoryHasKey(s, projectId, key));
    if k < |stories| then Some(stories[k]) else None
  }

  /** The story found is the first one that passes the filter. */
  lemma FirstStoryWithKey(stories: seq<Story>, projectId: Id, key: Option<string>, k: nat)
    requires k < |stories| && StoryHasKey(stories[k], projectId, key)
    requires forall j :: 0 <= j < k ==> !StoryHasKey(stories[j], projectId, key)
    ensures StoryWithKey(stories, projectId, key) == Some(stories[k])
  {
    var r := StoryWithKey(stories, projectId, key);
    var i :| 0 <= i < |stories| && r.value == stories[i] && StoryHasKey(stories[i], projectId, key)
      && forall j :: 0 <= j < i ==> !StoryHasKey(stories[j], projectId, key);
  }

  /** The task filter of `findTaskByCode`: the code contains the key and the task's story
      belongs to the project. */
  predicate TaskHasKey(t: Task, stories: seq<Story>, projectId: Id, key: string) {
    Text.Contains(t.code, key) && InProject(stories, t.storyId, projectId)
  }

  /** The story with that id belongs to the project (a `story: { projectId }` filter). */
  predicate InProject(stories: seq<Story>, storyId: Id, projectId: Id) {
    FindStory(stories, storyId).Some? && FindStory(stories, storyId).value.projectId == projectId
  }

  /** `task.findFirst({ where: { code: { contains: key }, story: { projectId } } })`. */
  function TaskWithKey(tasks: seq<Task>, stories: seq<Story>, projectId: Id, key: string): (r: Option<Task>)
    ensures r.None? <==> forall k :: 0 <= k < |tasks| ==> !TaskHasKey(tasks[k], stories, projectId, key)
    ensures r.Some? ==> exists k :: (0 <= k < |tasks| && r.value == tasks[k] && TaskHasKey(tasks[k], stories, projectId, key)
      && forall j :: 0 <= j < k ==> !TaskHasKey(tasks[j], stories, projectId, key))
  {
    var k := Collections.FirstWhere(tasks, (t: Task) => TaskHasKey(t, stories, projectId, key));
    if k < |tasks| then Some(tasks[k]) else None
  }

  /** `findStoryByCode` as written: the `US-n` reference is searched by its number; failing
      that, a `#n` reference is searched with `match[2]`, which that pattern does not have. */
  function LinkedStoryAsWritten(stories: seq<Story>, projectId: Id, message: string): (r: Option<Story>)
    ensures r.Some? ==> r.value in stories && r.value.projectId == projectId
  {
    var us := FirstStoryRef(message, 0);
    var byUs := if us.Some? then StoryWithKey(stories, projectId, us) else None;
    if byUs.Some? then byUs
    else if FirstHashRef(message, 0).Some? then StoryWithKey(stories, projectId, None)
    else None
  }

  /** As written, a `#n` reference links the project's first story, whatever n is. */
  lemma HashIgnoresNumberAsWritten(stories: seq<Story>, projectId: Id, message: string)
    requires FirstHashRef(message, 0).Some?
    requires FirstStoryRef(message, 0).None? || StoryWithKey(stories, projectId, FirstStoryRef(message, 0)).None?
    ensures LinkedStoryAsWritten(stories, projectId, message) == StoryWithKey(stories, projectId, None)
    ensures forall k :: 0 <= k < |stories| && stories[k].projectId == projectId ==> LinkedStoryAsWritten(stories, projectId, message) != None
  {
    if exists k :: 0 <= k < |stories| && stories[k].projectId == projectId {
      var k :| 0 <= k < |stories| && stories[k].projectId == projectId;
      assert StoryHasKey(stories[k], projectId, None);
    }
  }

  /** The message `fix#7` in a project whose stories are US-001 then US-007: the code as
      written links US-001, whose code does not contain 7. */
  lemma HashLinksWrongStoryAsWritten(s1: Story, s7: Story)
    requires s1.projectId == "p" && s1.code == "US-001" && s7.projectId == "p" && s7.code == "US-007"
    ensures LinkedStoryAsWritten([s1, s7], "p", "fix#7") == Some(s1) && !Text.Contains(s1.code, "7")
  {
    FixRefs();
    US001LacksSeven();
    assert StoryHasKey(s1, "p", None);
    FirstStoryWithKey([s1, s7], "p", None, 0);
  }

  /** With the number as the key, the same message links US-007. */
  lemma HashLinksNumberedStory(s1: Story, s7: Story)
    requires s1.projectId == "p" && s1.code == "US-001" && s7.projectId == "p" && s7.code == "US-007"
    ensures LinkedStory([s1, s7], "p", "fix#7") == Some(s7)
  {
    FixRefs();
    SevenFindsUS007(s1, s7);
  }

  /** Searched by "7", the project's stories US-001 then US-007 yield US-007. */
  lemma SevenFindsUS007(s1: Story, s7: Story)
    requires s1.projectId == "p" && s1.code == "US-001" && s7.projectId == "p" && s7.code == "US-007"
    ensures StoryWithKey([s1, s7], "p", Some("7")) == Some(s7)
  {
    US001LacksSeven();
    assert Text.OccursAt(s7.code, "7", 5);
    FirstStoryWithKey([s1, s7], "p", Some("7"), 1);
  }

  lemma US001LacksSeven()
    ensures !Text.Contains("US-001", "7")
  {
    var c := "US-001";
    assert '7' !in c by {
      forall j | 0 <= j < |c| ensures c[j] != '7' { }
    }
    NotContainsChar(c, '7');
  }

  /** `fix#7` has no story reference and the `#7` reference. */
  lemma FixRefs()
    ensures FirstStoryRef("fix#7", 0) == None && FirstHashRef("fix#7", 0) == Some("7")
  {
    var m := "fix#7";
    forall j | 0 <= j < |m| ensures NoStoryLetter(m[j]) {
    }
    NoStoryRef(m, 0);
    FixHashRef();
  }

  /** In `fix#7` the `#` follows a word character, so the reference is found. */
  lemma FixHashRef()
    ensures FirstHashRef("fix#7", 0) == Some("7")
  {
    var m := "fix#7";
    assert HashRefAt(m, 0) == None && HashRefAt(m, 1) == None && HashRefAt(m, 2) == None;
    assert m[3] == '#' && m[2] == 'x' && Text.IsWordChar(m[2]);
    assert m[4..] == "7";
    assert DigitsThenBoundary("7") == Some("7") by {
      assert Text.DigitRunLength("7"[1..]) == 0;
      assert Text.DigitRunLength("7") == 1;
      assert "7"[1..] == [] && "7"[..1] == "7";
    }
    assert HashRefAt(m, 3) == Some("7");
  }

  /** A letter that cannot start `US`, `HU` or `STORY`. */
  predicate NoStoryLetter(c: char) {
    Text.LowerChar(c) != 'u' && Text.LowerChar(c) != 'h' && Text.LowerChar(c) != 's'
  }

  /** A text with no `u`, `h` or `s` (in either case) has no story reference. */
  lemma {:induction false} NoStoryRef(s: string, i: nat)
    requires i <= |s| && forall j :: 0 <= j < |s| ==> NoStoryLetter(s[j])
    ensures FirstStoryRef(s, i) == None
    decreases |s| - i
  {
    if i < |s| {
      assert StoryRefAt(s, i) == None by {
        assert NoStoryLetter(s[i + 0]);
        assert "us"[0] == 'u' && "hu"[0] == 'h' && "story"[0] == 's';
      }
      NoStoryRef(s, i + 1);
    } else {
      assert StoryRefAt(s, i) == None;
    }
  }

  /** A one-character key occurs only where that character does. */
  lemma NotContainsChar(s: string, c: char)
    requires c !in s
    ensures !Text.Contains(s, [c])
  {
    forall i | 0 <= i <= |s| ensures !Text.OccursAt(s, [c], i) {
      if i + 1 <= |s| {
        assert s[i..i + 1][0] == s[i];
      }
    }
  }

  /** `findStoryByCode` with the `#n` reference searched by its number. */
  function LinkedStory(stories: seq<Story>, projectId: Id, message: string): (r: Option<Story>)
    ensures r.Some? ==> r.value in stories && r.value.projectId == projectId
    ensures r.Some? ==> ((FirstStoryRef(message, 0).Some? && Text.Contains(r.value.code, FirstStoryRef(message, 0).value))
                      || (FirstHashRef(message, 0).Some? && Text.Contains(r.value.code, FirstHashRef(message, 0).value)))
    ensures r.None? ==> forall k :: 0 <= k < |stories| && stories[k].projectId == projectId ==>
      (FirstStoryRef(message, 0).None? || !Text.Contains(stories[k].code, FirstStoryRef(message, 0).value))
      && (FirstHashRef(message, 0).None? || !Text.Contains(stories[k].code, FirstHashRef(message, 0).value))
  {
    var us := FirstStoryRef(message, 0);
    var hash := FirstHashRef(message, 0);
    var byUs := if us.Some? then StoryWithKey(stories, projectId, us) else None;
    if byUs.Some? then byUs
    else if hash.Some? then StoryWithKey(stories, projectId, hash)
    else None
  }

  /** `findTaskByCode`: the leftmost task reference, searched by its key. */
  function LinkedTask(tasks: seq<Task>, stories: seq<Story>, projectId: Id, message: string): (r: Option<Task>)
    ensures r.Some? ==> r.value in tasks && InProject(stories, r.value.storyId, projectId)
    ensures r.Some? ==> FirstTaskRef(message, 0).Some? && Text.Contains(r.value.code, TaskKey(FirstTaskRef(message, 0).value))
    ensures FirstTaskRef(message, 0).None? ==> r.None?
  {
    var ref := FirstTaskRef(message, 0);
    if ref.None? then None else TaskWithKey(tasks, stories, projectId, TaskKey(ref.value))
  }

  /** The links a commit message or a pull-request title gets (`linkedStory?.id || null`). */
  datatype Links = Links(storyId: Option<Id>, taskId: Option<Id>)

  function LinksOf(stories: seq<Story>, tasks: seq<Task>, projectId: Id, text: string): (l: Links)
    ensures l.storyId.Some? ==> LinkedStory(stories, projectId, text).Some? && l.storyId.value == LinkedStory(stories, projectId, text).value.id
    ensures l.taskId.Some? ==> LinkedTask(tasks, stories, projectId, text).Some? && l.taskId.value == LinkedTask(tasks, stories, projectId, text).value.id
    ensures l.storyId.None? <==> LinkedStory(stories, projectId, text).None?
    ensures l.taskId.None? <==> LinkedTask(tasks, stories, projectId, text).None?
  {
    var s := LinkedStory(stories, projectId, text);
    var t := LinkedTask(tasks, stories, projectId, text);
    Links(if s.Some? then Some(s.value.id) else None, if t.Some? then Some(t.value.id) else None)
  }
}
