/** The projects service: project codes built from the name's initials and the year, team
    composition (one Product Owner, at most one Scrum Master, only active unlocked users),
    the schedule rule, the read-access rule, and the project table it maintains. */
module Projects {
  import opened Wrappers
  import opened Scrum
  import opened Accounts
  import Text

  /** Sprint length, in weeks, when the request gives none. */
  const DefaultSprintDurationWeeks: int := 2

  // ---------------------------------------------------------------- project codes

  /** `word.match(/[a-zA-Z]/)`: the first ASCII letter of a word. */
  function FirstLetter(word: string): (r: Option<char>)
    ensures r.None? <==> forall i :: 0 <= i < |word| ==> !Text.IsAsciiLetter(word[i])
    ensures r.Some? ==> Text.IsAsciiLetter(r.value) && r.value in word
  {
    if word == [] then None
    else if Text.IsAsciiLetter(word[0]) then Some(word[0])
    else
      assert forall i :: 1 <= i < |word| ==> word[i] == word[1..][i - 1];
      FirstLetter(word[1..])
  }

  /** The upper-cased first letter of every word that has one, in word order. */
  function WordInitials(words: seq<string>): (r: string)
    ensures |r| <= |words|
    ensures forall i :: 0 <= i < |r| ==> 'A' <= r[i] <= 'Z'
    ensures r == [] <==> forall k :: 0 <= k < |words| ==> FirstLetter(words[k]).None?
  {
    if words == [] then ""
    else
      var rest := WordInitials(words[1..]);
      assert forall k :: 1 <= k < |words| ==> words[k] == words[1..][k - 1];
      match FirstLetter(words[0])
      case None => rest
      case Some(c) => [Text.UpperChar(c)] + rest
  }

  lemma {:induction false} WordInitialsAppend(a: seq<string>, b: seq<string>)
    ensures WordInitials(a + b) == WordInitials(a) + WordInitials(b)
  {
    if a != [] {
      assert (a + b)[1..] == a[1..] + b;
      WordInitialsAppend(a[1..], b);
    } else {
      assert a + b == b;
    }
  }

  /** The ASCII letters of a string (`replace(/[^a-zA-Z]/g, '')`). */
  function Letters(s: string): (r: string)
    ensures forall i :: 0 <= i < |r| ==> Text.IsAsciiLetter(r[i])
    ensures r == [] <==> forall i :: 0 <= i < |s| ==> !Text.IsAsciiLetter(s[i])
  {
    if s == [] then ""
    else
      assert forall i :: 1 <= i < |s| ==> s[i] == s[1..][i - 1];
      (if Text.IsAsciiLetter(s[0]) then [s[0]] else []) + Letters(s[1..])
  }

  /** The first `n` characters of `s`, or all of them (`slice(0, n)`). */
  function Take(s: string, n: nat): (r: string)
    ensures |r| == (if |s| < n then |s| else n) && r == s[..|r|]
  {
    s[..if |s| < n then |s| else n]
  }

  /** The initials of a project name: the first four word initials, or, with none, the first
      three letters of the name upper-cased, or `PRJ`. */
  function Initials(name: string): (r: string)
    ensures 1 <= |r| <= 4
  {
    var collected := WordInitials(Text.Words(name));
    if |collected| > 0 then Take(collected, 4)
    else
      var letters := Letters(name);
      if letters == [] then "PRJ" else Text.ToUpper(Take(letters, 3))
  }

  /** Initials are capital ASCII letters, so every project code starts with one to four of
      them. */
  lemma InitialsAreCapitals(name: string)
    ensures forall i :: 0 <= i < |Initials(name)| ==> 'A' <= Initials(name)[i] <= 'Z'
  {
    var collected := WordInitials(Text.Words(name));
    var letters := Letters(name);
    if |collected| > 0 {
      assert Initials(name) == collected[..|Take(collected, 4)|];
    } else if letters != [] {
      UpperLettersAreCapitals(Take(letters, 3));
    }
  }

  lemma UpperLettersAreCapitals(t: string)
    requires forall i :: 0 <= i < |t| ==> Text.IsAsciiLetter(t[i])
    ensures forall i :: 0 <= i < |t| ==> 'A' <= Text.ToUpper(t)[i] <= 'Z'
  {
    forall i | 0 <= i < |t| ensures 'A' <= Text.ToUpper(t)[i] <= 'Z' {
      var c := Text.UpperChar(t[i]);
      assert Text.IsAsciiLetter(c) && !('a' <= c <= 'z');
    }
  }

  /** Every letter of a string lies in one of its whitespace-separated runs. */
  lemma {:induction false} LetterInSomeRun(s: string, i: nat)
    requires i < |s| && Text.IsAsciiLetter(s[i])
    ensures exists k :: 0 <= k < |Text.Runs(s)| && FirstLetter(Text.Runs(s)[k]).Some?
    decreases |s|
  {
    if Text.IsSpace(s[0]) {
      assert i > 0;
      assert Text.Runs(s) == Text.Runs(s[1..]);
      assert s[1..][i - 1] == s[i];
      LetterInSomeRun(s[1..], i - 1);
    } else {
      var n := Text.RunLength(s);
      var runs := Text.Runs(s);
      assert runs == [s[..n]] + Text.Runs(s[n..]);
      if i < n {
        assert s[..n][i] == s[i];
        assert FirstLetter(runs[0]).Some?;
      } else {
        assert s[n..][i - n] == s[i];
        LetterInSomeRun(s[n..], i - n);
        var k :| 0 <= k < |Text.Runs(s[n..])| && FirstLetter(Text.Runs(s[n..])[k]).Some?;
        assert runs[k + 1] == Text.Runs(s[n..])[k];
      }
    }
  }

  /** The fallback never sees a letter: when no word has one, the name has none, so the
      initials are `PRJ`. */
  lemma NoInitialsMeansPrj(name: string)
    requires WordInitials(Text.Words(name)) == []
    ensures Initials(name) == "PRJ"
  {
    if Letters(name) != [] {
      var i :| 0 <= i < |name| && Text.IsAsciiLetter(name[i]);
      LetterInSomeRun(name, i);
      assert false;
    }
  }

  /** `${initials}-${year}`. */
  function BaseCode(initials: string, year: nat): string {
    initials + "-" + Text.NatToString(year)
  }

  /** `${initials}-${year}-${counter}`. */
  function SuffixedCode(initials: string, year: nat, counter: nat): string {
    BaseCode(initials, year) + "-" + Text.NatToString(counter)
  }

  /** Different counters give different codes, and none of them is the base code. */
  lemma SuffixedCodeInjective(initials: string, year: nat, j: nat, k: nat)
    ensures SuffixedCode(initials, year, j) == SuffixedCode(initials, year, k) ==> j == k
    ensures SuffixedCode(initials, year, j) != BaseCode(initials, year)
  {
    var b := BaseCode(initials, year) + "-";
    if SuffixedCode(initials, year, j) == SuffixedCode(initials, year, k) {
      assert Text.NatToString(j) == (b + Text.NatToString(j))[|b|..];
      assert Text.NatToString(k) == (b + Text.NatToString(k))[|b|..];
      Text.NatToStringInjective(j, k);
    }
  }

  /** The first loop of `generateProjectCode`: word initials until there are four. */
  method CollectInitials(words: seq<string>) returns (collected: string)
    ensures collected == Take(WordInitials(words), 4)
  {
    collected := [];
    var i := 0;
    while i < |words| && |collected| < 4
      invariant 0 <= i <= |words|
      invariant collected == WordInitials(words[..i]) && |collected| <= 4
    {
      WordInitialsAppend(words[..i], [words[i]]);
      assert words[..i + 1] == words[..i] + [words[i]];
      var letter := FirstLetter(words[i]);
      if letter.Some? {
        collected := collected + [Text.UpperChar(letter.value)];
      }
      i := i + 1;
    }
    if i == |words| {
      assert words[..i] == words;
    } else {
      WordInitialsAppend(words[..i], words[i..]);
      assert words == words[..i] + words[i..];
      assert |collected| == 4;
    }
  }

  /** `generateProjectCode`: the base code when no project holds it, otherwise the first
      free suffixed code. `taken` is the set of codes in the project table and `year` the
      current year. */
  method GenerateProjectCode(name: string, year: nat, taken: set<string>) returns (code: string)
    ensures code !in taken
    ensures BaseCode(Initials(name), year) !in taken ==> code == BaseCode(Initials(name), year)
    ensures BaseCode(Initials(name), year) in taken ==>
      exists k :: k >= 1 && code == SuffixedCode(Initials(name), year, k)
        && forall j :: 1 <= j < k ==> SuffixedCode(Initials(name), year, j) in taken
  {
    var initials := CollectInitials(Text.Words(name));
    if |initials| == 0 {
      var letters := Letters(name);
      initials := if letters == [] then "PRJ" else Text.ToUpper(Take(letters, 3));
    }
    assert initials == Initials(name);
    var base := BaseCode(initials, year);
    if base !in taken {
      return base;
    }
    code := NextFreeCode(initials, year, taken);
  }

  /** The counter loop of `generateProjectCode`: the suffixed code with the least counter
      that no project holds. */
  method NextFreeCode(initials: string, year: nat, taken: set<string>) returns (code: string)
    ensures code !in taken
    ensures exists k :: (k >= 1 && code == SuffixedCode(initials, year, k)
      && forall j :: 1 <= j < k ==> SuffixedCode(initials, year, j) in taken)
  {
    var counter: nat := 1;
    code := SuffixedCode(initials, year, counter);
    ghost var left := taken;
    while code in taken
      invariant counter >= 1 && code == SuffixedCode(initials, year, counter)
      invariant forall j :: 1 <= j < counter ==> SuffixedCode(initials, year, j) in taken
      invariant left <= taken
      invariant forall j: nat :: j >= counter && SuffixedCode(initials, year, j) in taken ==> SuffixedCode(initials, year, j) in left
      decreases |left|
    {
      left := left - {code};
      counter := counter + 1;
      code := SuffixedCode(initials, year, counter);
      forall j: nat | j >= counter && SuffixedCode(initials, year, j) in taken
        ensures SuffixedCode(initials, year, j) in left
      {
        SuffixedCodeInjective(initials, year, j, counter - 1);
      }
    }
  }

  // ---------------------------------------------------------------- small rules

  /** `normalizeOptionalField`: absent, or blank after trimming, becomes null. */
  function NormalizeOptional(value: Option<string>): (r: Option<string>)
    ensures r.None? <==> value.None? || Text.Trim(value.value) == []
    ensures r.Some? ==> r.value == Text.Trim(value.value) && r.value != []
  {
    match value
    case None => None
    case Some(v) => if |Text.Trim(v)| > 0 then Some(Text.Trim(v)) else None
  }

  /** Normalising twice changes nothing. */
  lemma NormalizeOptionalIdempotent(value: Option<string>)
    ensures NormalizeOptional(NormalizeOptional(value)) == NormalizeOptional(value)
  {
    if value.Some? {
      Text.TrimIdempotent(value.value);
    }
  }

  /** `ensureValidSchedule`: an end date, when there is one, must come after the start. */
  function ScheduleCheck(startDate: int, endDate: Option<int>): (r: Option<Failure>)
    ensures r.Some? <==> endDate.Some? && endDate.value <= startDate
    ensures r.Some? ==> r.value.BadRequest?
  {
    if endDate.Some? && endDate.value <= startDate then Some(BadRequest("the end date must follow the start date")) else None
  }

  /** `findOne`'s access rule: administrators, a public project, its owner and every listed
      member, active or not. */
  predicate CanRead(p: Project, userId: Id, isAdmin: bool) {
    isAdmin || p.visibility == PUBLIC || p.ownerId == userId || exists m :: m in p.members && m.userId == userId
  }

  /** The project view of `findOne` is wider than the shared access check: whoever passes
      the shared check may read the project. */
  lemma AccessImpliesRead(p: Project, userId: Id, isAdmin: bool)
    requires CheckAccess(p, userId).Ok?
    ensures CanRead(p, userId, isAdmin)
  {
    if p.visibility == PRIVATE && p.ownerId != userId {
      var m :| m in p.members && m.isActive && m.userId == userId;
    }
  }

  // ---------------------------------------------------------------- team assignments

  /** An entry of the team list in a request. */
  datatype TeamMember = TeamMember(userId: string, role: Role)

  /** `member.userId.trim()`. */
  function IdOf(m: TeamMember): string {
    Text.Trim(m.userId)
  }

  /** An entry of the insertion-ordered Map `buildTeamAssignments` fills. */
  datatype Assignment = Assignment(userId: Id, role: Role)

  predicate HasUser(xs: seq<Assignment>, id: Id) {
    exists k :: 0 <= k < |xs| && xs[k].userId == id
  }

  /** The keys of a Map are distinct. */
  predicate DistinctUsers(xs: seq<Assignment>) {
    forall a, b :: 0 <= a < b < |xs| ==> xs[a].userId != xs[b].userId
  }

  /** `map.set(id, role)`: overwrite in place when the key is present, append otherwise. */
  function SetRole(xs: seq<Assignment>, id: Id, role: Role): (r: seq<Assignment>)
    requires DistinctUsers(xs)
    ensures |r| == (if HasUser(xs, id) then |xs| else |xs| + 1)
    ensures forall k :: 0 <= k < |xs| ==> r[k] == (if xs[k].userId == id then Assignment(id, role) else xs[k])
    ensures !HasUser(xs, id) ==> r[|xs|] == Assignment(id, role)
    ensures DistinctUsers(r)
  {
    if HasUser(xs, id) then seq(|xs|, k requires 0 <= k < |xs| => if xs[k].userId == id then Assignment(id, role) else xs[k])
    else xs + [Assignment(id, role)]
  }

  /** After `set`, the keys are the old keys and `id`, and `id` carries the new role. */
  lemma SetRoleKeys(xs: seq<Assignment>, id: Id, role: Role)
    requires DistinctUsers(xs)
    ensures forall u :: HasUser(SetRole(xs, id, role), u) <==> HasUser(xs, u) || u == id
    ensures Assignment(id, role) in SetRole(xs, id, role)
    ensures forall a :: a in SetRole(xs, id, role) && a.userId != id ==> a in xs
  {
    var r := SetRole(xs, id, role);
    forall u ensures HasUser(r, u) <==> HasUser(xs, u) || u == id {
      if HasUser(r, u) {
        var k :| 0 <= k < |r| && r[k].userId == u;
        if k < |xs| && u != id {
          assert xs[k].userId == u;
        }
      }
      if HasUser(xs, u) {
        var k :| 0 <= k < |xs| && xs[k].userId == u;
        assert r[k].userId == u;
      }
      if u == id && HasUser(xs, id) {
        var k :| 0 <= k < |xs| && xs[k].userId == id;
        assert r[k].userId == u;
      }
      if u == id && !HasUser(xs, id) {
        assert r[|xs|].userId == u;
      }
    }
    if HasUser(xs, id) {
      var k :| 0 <= k < |xs| && xs[k].userId == id;
      assert r[k] == Assignment(id, role);
    } else {
      assert r[|xs|] == Assignment(id, role);
    }
    forall a | a in r && a.userId != id ensures a in xs {
      var k :| 0 <= k < |r| && r[k] == a;
      assert k < |xs| && xs[k] == a;
    }
  }

  /** The members collected from the request, and the Product Owner it names, if any. */
  datatype Collected = Collected(assignments: seq<Assignment>, requestedOwner: Option<Id>)

  /** What a successful pass over the request yields: one entry per request entry with its
      trimmed, non-blank id and its role, no id twice, and the named Product Owner when an
      entry has that role. */
  predicate CollectedFrom(raw: seq<TeamMember>, c: Collected) {
    |c.assignments| == |raw| && DistinctUsers(c.assignments)
    && (forall k :: 0 <= k < |raw| ==> c.assignments[k] == Assignment(IdOf(raw[k]), raw[k].role) && IdOf(raw[k]) != [])
    && (forall k :: 0 <= k < |raw| && raw[k].role == PRODUCT_OWNER ==> c.requestedOwner == Some(IdOf(raw[k])))
    && (c.requestedOwner.Some? ==> exists k :: 0 <= k < |raw| && raw[k].role == PRODUCT_OWNER && IdOf(raw[k]) == c.requestedOwner.value)
  }

  /** One entry of the loop of `buildTeamAssignments`: a blank id is a BadRequest, an id
      already in the Map or a second, different Product Owner a Conflict; otherwise the
      entry is appended and a Product Owner entry names the requested owner. */
  function CollectStep(c: Collected, m: TeamMember): (r: Result<Collected, Failure>)
    ensures r.Err? ==> r.error.BadRequest? || r.error.Conflict?
  {
    var id := IdOf(m);
    if id == [] then Err(BadRequest("every team member needs an id"))
    else if HasUser(c.assignments, id) then Err(Conflict("the team lists a member twice"))
    else if m.role == PRODUCT_OWNER && c.requestedOwner.Some? && c.requestedOwner.value != id then
      Err(Conflict("only one Product Owner"))
    else Ok(Collected(c.assignments + [Assignment(id, m.role)], if m.role == PRODUCT_OWNER then Some(id) else c.requestedOwner))
  }

  /** The loop from entry `i` on, with `c` collected so far. */
  function CollectFrom(raw: seq<TeamMember>, i: nat, c: Collected): (r: Result<Collected, Failure>)
    requires i <= |raw|
    ensures r.Err? ==> r.error.BadRequest? || r.error.Conflict?
    decreases |raw| - i
  {
    if i == |raw| then Ok(c)
    else match CollectStep(c, raw[i])
      case Err(e) => Err(e)
      case Ok(next) => CollectFrom(raw, i + 1, next)
  }

  /** The whole loop over the request. */
  function Collect(raw: seq<TeamMember>): (r: Result<Collected, Failure>)
    ensures r.Ok? ==> CollectedFrom(raw, r.value)
    ensures r.Err? ==> r.error.BadRequest? || r.error.Conflict?
  {
    assert raw[..0] == [];
    CollectFromFacts(raw, 0, Collected([], None));
    CollectFrom(raw, 0, Collected([], None))
  }

  /** A step keeps the description of what has been collected. */
  lemma CollectStepFacts(init: seq<TeamMember>, c: Collected, m: TeamMember)
    requires CollectedFrom(init, c) && CollectStep(c, m).Ok?
    ensures CollectedFrom(init + [m], CollectStep(c, m).value)
  {
    var next := CollectStep(c, m).value;
    var raw := init + [m];
    assert forall k :: 0 <= k < |init| ==> raw[k] == init[k];
    assert raw[|init|] == m;
    forall a, b | 0 <= a < b < |next.assignments| ensures next.assignments[a].userId != next.assignments[b].userId {
      if b == |init| {
        assert c.assignments[a].userId != IdOf(m);
      }
    }
    if next.requestedOwner.Some? {
      if m.role == PRODUCT_OWNER {
        assert raw[|init|].role == PRODUCT_OWNER && IdOf(raw[|init|]) == next.requestedOwner.value;
      } else {
        var k :| 0 <= k < |init| && init[k].role == PRODUCT_OWNER && IdOf(init[k]) == c.requestedOwner.value;
        assert raw[k] == init[k];
      }
    }
  }

  lemma {:induction false} CollectFromFacts(raw: seq<TeamMember>, i: nat, c: Collected)
    requires i <= |raw| && CollectedFrom(raw[..i], c)
    ensures CollectFrom(raw, i, c).Ok? ==> CollectedFrom(raw, CollectFrom(raw, i, c).value)
    decreases |raw| - i
  {
    if i == |raw| {
      assert raw[..i] == raw;
    } else if CollectStep(c, raw[i]).Ok? {
      CollectStepFacts(raw[..i], c, raw[i]);
      assert raw[..i] + [raw[i]] == raw[..i + 1];
      CollectFromFacts(raw, i + 1, CollectStep(c, raw[i]).value);
    }
  }

  /** The request is refused exactly when it has a blank id, an id twice, or two different
      Product Owners. */
  predicate BadTeamRequest(raw: seq<TeamMember>) {
    (exists k :: 0 <= k < |raw| && IdOf(raw[k]) == [])
    || (exists a, b :: 0 <= a < b < |raw| && IdOf(raw[a]) == IdOf(raw[b]))
    || (exists a, b :: 0 <= a < b < |raw| && raw[a].role == PRODUCT_OWNER && raw[b].role == PRODUCT_OWNER && IdOf(raw[a]) != IdOf(raw[b]))
  }

  /** A well-formed request passes the loop. */
  lemma CollectAcceptsGoodRequests(raw: seq<TeamMember>, c: Collected)
    requires CollectedFrom(raw, c)
    ensures !BadTeamRequest(raw)
  {
    assert !exists k :: 0 <= k < |raw| && IdOf(raw[k]) == [];
    assert !exists a, b :: 0 <= a < b < |raw| && IdOf(raw[a]) == IdOf(raw[b]) by {
      forall a, b | 0 <= a < b < |raw| ensures IdOf(raw[a]) != IdOf(raw[b]) {
        assert c.assignments[a].userId != c.assignments[b].userId;
      }
    }
    assert !exists a, b :: 0 <= a < b < |raw| && raw[a].role == PRODUCT_OWNER && raw[b].role == PRODUCT_OWNER && IdOf(raw[a]) != IdOf(raw[b]);
  }

  /** A refused request is a bad one. */
  lemma CollectRefusesOnlyBadRequests(raw: seq<TeamMember>)
    requires Collect(raw).Err?
    ensures BadTeamRequest(raw)
  {
    assert raw[..0] == [];
    RefusedFromIsBad(raw, 0, Collected([], None));
  }

  lemma {:induction false} RefusedFromIsBad(raw: seq<TeamMember>, i: nat, c: Collected)
    requires i <= |raw| && CollectedFrom(raw[..i], c) && CollectFrom(raw, i, c).Err?
    ensures BadTeamRequest(raw)
    decreases |raw| - i
  {
    assert raw[..i] + [raw[i]] == raw[..i + 1];
    if CollectStep(c, raw[i]).Ok? {
      CollectStepFacts(raw[..i], c, raw[i]);
      RefusedFromIsBad(raw, i + 1, CollectStep(c, raw[i]).value);
    } else {
      RefusedEntryIsBad(raw[..i + 1], c);
      BadPrefixIsBad(raw, raw[..i + 1]);
    }
  }

  lemma BadPrefixIsBad(raw: seq<TeamMember>, init: seq<TeamMember>)
    requires |init| <= |raw| && init == raw[..|init|] && BadTeamRequest(init)
    ensures BadTeamRequest(raw)
  {
    assert forall k :: 0 <= k < |init| ==> raw[k] == init[k];
    if exists k :: 0 <= k < |init| && IdOf(init[k]) == [] {
      var k :| 0 <= k < |init| && IdOf(init[k]) == [];
      assert IdOf(raw[k]) == [];
    } else if exists a, b :: 0 <= a < b < |init| && IdOf(init[a]) == IdOf(init[b]) {
      var a, b :| 0 <= a < b < |init| && IdOf(init[a]) == IdOf(init[b]);
      assert IdOf(raw[a]) == IdOf(raw[b]);
    } else {
      var a, b :| 0 <= a < b < |init| && init[a].role == PRODUCT_OWNER && init[b].role == PRODUCT_OWNER && IdOf(init[a]) != IdOf(init[b]);
      assert raw[a] == init[a] && raw[b] == init[b];
    }
  }

  lemma RefusedEntryIsBad(raw: seq<TeamMember>, c: Collected)
    requires raw != [] && CollectedFrom(raw[..|raw| - 1], c) && CollectStep(c, raw[|raw| - 1]).Err?
    ensures BadTeamRequest(raw)
  {
    var init := raw[..|raw| - 1];
    var last := |raw| - 1;
    assert forall k :: 0 <= k < |init| ==> raw[k] == init[k];
    var id := IdOf(raw[last]);
    if id == [] {
      assert IdOf(raw[last]) == [];
    } else if HasUser(c.assignments, id) {
      var a :| 0 <= a < |c.assignments| && c.assignments[a].userId == id;
      assert IdOf(raw[a]) == IdOf(raw[last]);
    } else {
      var a :| 0 <= a < |init| && init[a].role == PRODUCT_OWNER && IdOf(init[a]) == c.requestedOwner.value;
      assert raw[a].role == PRODUCT_OWNER && raw[last].role == PRODUCT_OWNER && IdOf(raw[a]) != IdOf(raw[last]);
    }
  }

  /** Occurrences of a role in the team. */
  function CountRole(xs: seq<Assignment>, role: Role): (n: nat)
    ensures forall k :: 0 <= k < |xs| && xs[k].role == role ==> n >= 1
    ensures forall a, b :: 0 <= a < b < |xs| && xs[a].role == role && xs[b].role == role ==> n >= 2
  {
    if xs == [] then 0
    else
      var rest := CountRole(xs[1..], role);
      assert forall k :: 1 <= k < |xs| ==> xs[k] == xs[1..][k - 1];
      (if xs[0].role == role then 1 else 0) + rest
  }

  /** The team `buildTeamAssignments` settles on, and its Product Owner. */
  datatype Team = Team(assignments: seq<Assignment>, nextOwnerId: Id)

  /** A user exists, is active and is not locked at `now`. */
  predicate Eligible(users: seq<User>, id: Id, now: int) {
    FindById(users, id).Some? && users[FindById(users, id).value].isActive && !IsLocked(users[FindById(users, id).value], now)
  }

  /** The owner the request settles on: without `allowOwnerChange` the current owner,
      otherwise the named Product Owner or, with none, the current owner. */
  function NextOwner(c: Collected, currentOwnerId: Id, allowOwnerChange: bool): (o: Id)
    ensures !allowOwnerChange || c.requestedOwner.None? ==> o == currentOwnerId
    ensures allowOwnerChange && c.requestedOwner.Some? ==> o == c.requestedOwner.value
  {
    if !allowOwnerChange then currentOwnerId else c.requestedOwner.GetOr(currentOwnerId)
  }

  /** What follows the loop: the owner rule, the Product Owner entry, the Scrum Master
      count and the user checks. */
  function Settle(c: Collected, currentOwnerId: Id, allowOwnerChange: bool, users: seq<User>, now: int): (r: Result<Team, Failure>)
    requires DistinctUsers(c.assignments)
    ensures r.Ok? ==> r.value.nextOwnerId == NextOwner(c, currentOwnerId, allowOwnerChange)
    ensures r.Ok? ==> r.value.assignments == SetRole(c.assignments, r.value.nextOwnerId, PRODUCT_OWNER)
    ensures r.Ok? ==> CountRole(r.value.assignments, SCRUM_MASTER) <= 1
    ensures r.Ok? ==> forall k :: 0 <= k < |r.value.assignments| ==> Eligible(users, r.value.assignments[k].userId, now)
    ensures !allowOwnerChange && c.requestedOwner.Some? && c.requestedOwner.value != currentOwnerId ==> r.Err?
  {
    if !allowOwnerChange && c.requestedOwner.Some? && c.requestedOwner.value != currentOwnerId then
      Err(Forbidden("the creator must remain Product Owner"))
    else
      var next := NextOwner(c, currentOwnerId, allowOwnerChange);
      var team := SetRole(c.assignments, next, PRODUCT_OWNER);
      if CountRole(team, SCRUM_MASTER) > 1 then Err(Conflict("only one Scrum Master"))
      else if exists k :: 0 <= k < |team| && FindById(users, team[k].userId).None? then Err(NotFound("user"))
      else if exists k :: 0 <= k < |team| && !Eligible(users, team[k].userId, now) then Err(Forbidden("inactive or locked user"))
      else Ok(Team(team, next))
  }

  /** `buildTeamAssignments`. Naming a Product Owner other than the current owner is
      Forbidden unless `allowOwnerChange`; more than one Scrum Master is a Conflict, an unknown
      user NotFound, an inactive or locked one Forbidden. */
  function TeamAssignments(raw: seq<TeamMember>, currentOwnerId: Id, allowOwnerChange: bool, users: seq<User>, now: int)
    : (r: Result<Team, Failure>)
    ensures r.Ok? ==> DistinctUsers(r.value.assignments) && HasUser(r.value.assignments, r.value.nextOwnerId)
    ensures r.Ok? && !allowOwnerChange ==> r.value.nextOwnerId == currentOwnerId
  {
    var collected := Collect(raw);
    if collected.Err? then Err(collected.error)
    else
      var c := collected.value;
      var r := Settle(c, currentOwnerId, allowOwnerChange, users, now);
      if r.Ok? then SetRoleKeys(c.assignments, r.value.nextOwnerId, PRODUCT_OWNER); r else r
  }

  /** What a settled team satisfies: distinct members; the next owner is a member and the only
      Product Owner; at most one Scrum Master; every member an eligible user; the members are
      the next owner and the request's ids, each request entry other than the owner keeping
      its role. */
  ghost predicate WellFormedTeam(raw: seq<TeamMember>, t: Team, users: seq<User>, now: int) {
    DistinctUsers(t.assignments)
    && HasUser(t.assignments, t.nextOwnerId)
    && (forall k :: 0 <= k < |t.assignments| ==> (t.assignments[k].role == PRODUCT_OWNER <==> t.assignments[k].userId == t.nextOwnerId))
    && (forall a, b :: 0 <= a < b < |t.assignments| && t.assignments[a].role == SCRUM_MASTER ==> t.assignments[b].role != SCRUM_MASTER)
    && (forall k :: 0 <= k < |t.assignments| ==> Eligible(users, t.assignments[k].userId, now))
    && (forall u :: HasUser(t.assignments, u) <==> u == t.nextOwnerId || exists k :: 0 <= k < |raw| && IdOf(raw[k]) == u)
    && (forall k :: 0 <= k < |raw| && IdOf(raw[k]) != t.nextOwnerId ==> Assignment(IdOf(raw[k]), raw[k].role) in t.assignments)
  }

  /** Every team `buildTeamAssignments` accepts is well formed, and its Product Owner is the
      one the request names when owner changes are allowed, else the current owner. */
  lemma TeamAssignmentsWellFormed(raw: seq<TeamMember>, currentOwnerId: Id, allowOwnerChange: bool, users: seq<User>, now: int)
    requires TeamAssignments(raw, currentOwnerId, allowOwnerChange, users, now).Ok?
    ensures WellFormedTeam(raw, TeamAssignments(raw, currentOwnerId, allowOwnerChange, users, now).value, users, now)
    ensures var next := TeamAssignments(raw, currentOwnerId, allowOwnerChange, users, now).value.nextOwnerId;
      (allowOwnerChange ==> forall k :: 0 <= k < |raw| && raw[k].role == PRODUCT_OWNER ==> next == IdOf(raw[k]))
      && ((forall k :: 0 <= k < |raw| ==> raw[k].role != PRODUCT_OWNER) ==> next == currentOwnerId)
  {
    var collected := Collect(raw);
    SettledTeamIsWellFormed(raw, collected.value, currentOwnerId, allowOwnerChange, users, now);
  }

  lemma SettledTeamIsWellFormed(raw: seq<TeamMember>, c: Collected, currentOwnerId: Id, allowOwnerChange: bool, users: seq<User>, now: int)
    requires CollectedFrom(raw, c) && Settle(c, currentOwnerId, allowOwnerChange, users, now).Ok?
    ensures WellFormedTeam(raw, Settle(c, currentOwnerId, allowOwnerChange, users, now).value, users, now)
    ensures var next := Settle(c, currentOwnerId, allowOwnerChange, users, now).value.nextOwnerId;
      (allowOwnerChange ==> forall k :: 0 <= k < |raw| && raw[k].role == PRODUCT_OWNER ==> next == IdOf(raw[k]))
      && ((forall k :: 0 <= k < |raw| ==> raw[k].role != PRODUCT_OWNER) ==> next == currentOwnerId)
  {
    var t := Settle(c, currentOwnerId, allowOwnerChange, users, now).value;
    TeamFacts(raw, c, t.nextOwnerId, t.assignments, currentOwnerId, allowOwnerChange);
    if c.requestedOwner.Some? {
      var k :| 0 <= k < |raw| && raw[k].role == PRODUCT_OWNER && IdOf(raw[k]) == c.requestedOwner.value;
    }
  }

  /** A bad request, and on creation a Product Owner other than the creator, is refused. */
  lemma TeamAssignmentsRefuses(raw: seq<TeamMember>, currentOwnerId: Id, allowOwnerChange: bool, users: seq<User>, now: int)
    ensures BadTeamRequest(raw) ==> TeamAssignments(raw, currentOwnerId, allowOwnerChange, users, now).Err?
    ensures !allowOwnerChange && (exists k :: 0 <= k < |raw| && raw[k].role == PRODUCT_OWNER && IdOf(raw[k]) != currentOwnerId)
      ==> TeamAssignments(raw, currentOwnerId, allowOwnerChange, users, now).Err?
  {
    if Collect(raw).Ok? {
      CollectAcceptsGoodRequests(raw, Collect(raw).value);
    }
  }

  /** The bookkeeping behind `TeamAssignmentsWellFormed`. */
  lemma TeamFacts(raw: seq<TeamMember>, c: Collected, next: Id, team: seq<Assignment>, currentOwnerId: Id, allowOwnerChange: bool)
    requires CollectedFrom(raw, c)
    requires !(!allowOwnerChange && c.requestedOwner.Some? && c.requestedOwner.value != currentOwnerId)
    requires next == NextOwner(c, currentOwnerId, allowOwnerChange)
    requires team == SetRole(c.assignments, next, PRODUCT_OWNER)
    ensures HasUser(team, next)
    ensures forall k :: 0 <= k < |team| ==> (team[k].role == PRODUCT_OWNER <==> team[k].userId == next)
    ensures forall u :: HasUser(team, u) <==> u == next || exists k :: 0 <= k < |raw| && IdOf(raw[k]) == u
    ensures forall k :: 0 <= k < |raw| && IdOf(raw[k]) != next ==> Assignment(IdOf(raw[k]), raw[k].role) in team
  {
    SetRoleKeys(c.assignments, next, PRODUCT_OWNER);
    forall k | 0 <= k < |team| ensures team[k].role == PRODUCT_OWNER <==> team[k].userId == next {
    }
    forall u ensures HasUser(c.assignments, u) <==> exists k :: 0 <= k < |raw| && IdOf(raw[k]) == u {
      if HasUser(c.assignments, u) {
        var k :| 0 <= k < |c.assignments| && c.assignments[k].userId == u;
        assert IdOf(raw[k]) == u;
      }
      if exists k :: 0 <= k < |raw| && IdOf(raw[k]) == u {
        var k :| 0 <= k < |raw| && IdOf(raw[k]) == u;
        assert c.assignments[k].userId == u;
      }
    }
    forall k | 0 <= k < |raw| && IdOf(raw[k]) != next ensures Assignment(IdOf(raw[k]), raw[k].role) in team {
      assert team[k] == c.assignments[k];
    }
  }

  /** The loop of `buildTeamAssignments` as the service runs it, filling the Map entry by
      entry and stopping at the first refused entry. */
  method CollectMembers(raw: seq<TeamMember>) returns (r: Result<Collected, Failure>)
    ensures r == Collect(raw)
  {
    var c := Collected([], None);
    var i := 0;
    while i < |raw|
      invariant 0 <= i <= |raw|
      invariant CollectFrom(raw, i, c) == Collect(raw)
    {
      var id := IdOf(raw[i]);
      if id == [] {
        return Err(BadRequest("every team member needs an id"));
      }
      if HasUser(c.assignments, id) {
        return Err(Conflict("the team lists a member twice"));
      }
      if raw[i].role == PRODUCT_OWNER {
        if c.requestedOwner.Some? && c.requestedOwner.value != id {
          return Err(Conflict("only one Product Owner"));
        }
      }
      c := Collected(c.assignments + [Assignment(id, raw[i].role)], if raw[i].role == PRODUCT_OWNER then Some(id) else c.requestedOwner);
      i := i + 1;
    }
    r := Ok(c);
  }

  /** The checks after the loop of `buildTeamAssignments`. */
  method SettleTeam(c: Collected, currentOwnerId: Id, allowOwnerChange: bool, users: seq<User>, now: int)
    returns (r: Result<Team, Failure>)
    requires DistinctUsers(c.assignments)
    ensures r == Settle(c, currentOwnerId, allowOwnerChange, users, now)
  {
    if !allowOwnerChange && c.requestedOwner.Some? && c.requestedOwner.value != currentOwnerId {
      return Err(Forbidden("the creator must remain Product Owner"));
    }
    var next := if !allowOwnerChange then currentOwnerId else c.requestedOwner.GetOr(currentOwnerId);
    var team := SetRole(c.assignments, next, PRODUCT_OWNER);
    if CountRole(team, SCRUM_MASTER) > 1 {
      return Err(Conflict("only one Scrum Master"));
    }
    if exists k :: 0 <= k < |team| && FindById(users, team[k].userId).None? {
      return Err(NotFound("user"));
    }
    if exists k :: 0 <= k < |team| && !Eligible(users, team[k].userId, now) {
      return Err(Forbidden("inactive or locked user"));
    }
    r := Ok(Team(team, next));
  }

  /** `buildTeamAssignments`: the loop, then the owner, Scrum Master and user checks. */
  method BuildTeamAssignments(raw: seq<TeamMember>, currentOwnerId: Id, allowOwnerChange: bool, users: seq<User>, now: int)
    returns (r: Result<Team, Failure>)
    ensures r == TeamAssignments(raw, currentOwnerId, allowOwnerChange, users, now)
  {
    var collected := CollectMembers(raw);
    if collected.Err? {
      return Err(collected.error);
    }
    var c := collected.value;
    assert TeamAssignments(raw, currentOwnerId, allowOwnerChange, users, now) == Settle(c, currentOwnerId, allowOwnerChange, users, now);
    r := SettleTeam(c, currentOwnerId, allowOwnerChange, users, now);
  }

  // ---------------------------------------------------------------- member rows

  /** The member rows of a project have distinct users (unique key (project, user)). */
  predicate DistinctMembers(rows: seq<Member>) {
    forall a, b :: 0 <= a < b < |rows| ==> rows[a].userId != rows[b].userId
  }

  /** `projectMember.upsert` for one assignment: the user's row reactivated with the new
      role, or a new active row. */
  function Upsert(rows: seq<Member>, a: Assignment): (r: seq<Member>)
    requires DistinctMembers(rows)
    ensures DistinctMembers(r)
    ensures Member(a.userId, a.role, true) in r
    ensures forall m :: m in r ==> m == Member(a.userId, a.role, true) || (m in rows && m.userId != a.userId)
    ensures forall m :: m in rows && m.userId != a.userId ==> m in r
  {
    if exists k :: 0 <= k < |rows| && rows[k].userId == a.userId then
      var k :| 0 <= k < |rows| && rows[k].userId == a.userId;
      var r := rows[k := Member(a.userId, a.role, true)];
      assert r[k] == Member(a.userId, a.role, true);
      assert forall j :: 0 <= j < |rows| && j != k ==> r[j] == rows[j];
      r
    else rows + [Member(a.userId, a.role, true)]
  }

  /** The upserts of the transaction, one per assignment in order. */
  function UpsertAll(rows: seq<Member>, team: seq<Assignment>): (r: seq<Member>)
    requires DistinctMembers(rows)
    ensures DistinctMembers(r)
    decreases |team|
  {
    if team == [] then rows
    else Upsert(UpsertAll(rows, team[..|team| - 1]), team[|team| - 1])
  }

  /** The rows whose user is in the team (what `deleteMany` leaves). */
  function KeptRows(rows: seq<Member>, team: seq<Assignment>): (r: seq<Member>)
    ensures forall m :: m in r <==> m in rows && HasUser(team, m.userId)
    ensures DistinctMembers(rows) ==> DistinctMembers(r)
  {
    if rows == [] then []
    else
      var rest := KeptRows(rows[1..], team);
      assert rows == [rows[0]] + rows[1..];
      (if HasUser(team, rows[0].userId) then [rows[0]] else []) + rest
  }

  /** `deleteMany({ userId: { notIn: ids } })` followed by one upsert per assignment. */
  function ReplaceTeam(rows: seq<Member>, team: seq<Assignment>): (r: seq<Member>)
    requires DistinctMembers(rows)
    ensures DistinctMembers(r)
  {
    UpsertAll(KeptRows(rows, team), team)
  }

  /** The general statement: upserting `team` into rows whose users are in the team or in
      `pending` leaves every assignment and only users of the team or `pending`. */
  lemma {:induction false} UpsertAllPending(rows: seq<Member>, team: seq<Assignment>, pending: set<Id>)
    requires DistinctMembers(rows) && DistinctUsers(team)
    requires forall m :: m in rows ==> HasUser(team, m.userId) || m.userId in pending
    ensures forall k :: 0 <= k < |team| ==> Member(team[k].userId, team[k].role, true) in UpsertAll(rows, team)
    ensures forall m :: m in UpsertAll(rows, team) ==> HasUser(team, m.userId) || m.userId in pending
    decreases |team|
  {
    if team != [] {
      var init := team[..|team| - 1];
      var a := team[|team| - 1];
      assert forall k :: 0 <= k < |init| ==> team[k] == init[k];
      forall m | m in rows ensures HasUser(init, m.userId) || m.userId in pending + {a.userId} {
        if !(m.userId in pending) {
          var k :| 0 <= k < |team| && team[k].userId == m.userId;
        }
      }
      UpsertAllPending(rows, init, pending + {a.userId});
      var before := UpsertAll(rows, init);
      assert UpsertAll(rows, team) == Upsert(before, a);
      UpsertStep(before, init, a, pending);
    }
  }

  /** The last upsert of `UpsertAllPending`'s induction step. */
  lemma UpsertStep(before: seq<Member>, init: seq<Assignment>, a: Assignment, pending: set<Id>)
    requires DistinctMembers(before) && DistinctUsers(init + [a])
    requires forall k :: 0 <= k < |init| ==> Member(init[k].userId, init[k].role, true) in before
    requires forall m :: m in before ==> HasUser(init, m.userId) || m.userId in pending + {a.userId}
    ensures forall k :: 0 <= k < |init + [a]| ==> Member((init + [a])[k].userId, (init + [a])[k].role, true) in Upsert(before, a)
    ensures forall m :: m in Upsert(before, a) ==> HasUser(init + [a], m.userId) || m.userId in pending
  {
    var team := init + [a];
    var after := Upsert(before, a);
    forall m | m in after ensures HasUser(team, m.userId) || m.userId in pending {
      if m.userId == a.userId {
        assert team[|init|].userId == m.userId;
      } else if m.userId !in pending {
        assert m in before;
        var k :| 0 <= k < |init| && init[k].userId == m.userId;
        assert team[k].userId == m.userId;
      }
    }
    forall k | 0 <= k < |team| ensures Member(team[k].userId, team[k].role, true) in after {
      if k < |init| {
        assert team[k] == init[k];
        assert team[k].userId != team[|init|].userId;
      }
    }
  }

  /** After the replacement the project's members are exactly the team, each active and with
      its assigned role, and no user has two rows. */
  lemma ReplaceTeamIsTheTeam(rows: seq<Member>, team: seq<Assignment>)
    requires DistinctMembers(rows) && DistinctUsers(team)
    ensures forall k :: 0 <= k < |team| ==> Member(team[k].userId, team[k].role, true) in ReplaceTeam(rows, team)
    ensures forall m :: m in ReplaceTeam(rows, team) ==> HasUser(team, m.userId)
    ensures DistinctMembers(ReplaceTeam(rows, team))
  {
    UpsertAllPending(KeptRows(rows, team), team, {});
  }

  /** The member part of `update`'s transaction: delete the rows outside the team, then
      upsert each assignment in order. */
  method ReplaceMembers(rows: seq<Member>, team: seq<Assignment>) returns (result: seq<Member>)
    requires DistinctMembers(rows)
    ensures result == ReplaceTeam(rows, team)
  {
    result := KeptRows(rows, team);
    assert team[..0] == [];
    var i := 0;
    while i < |team|
      invariant 0 <= i <= |team|
      invariant result == UpsertAll(KeptRows(rows, team), team[..i])
    {
      assert team[..i + 1][..i] == team[..i] && team[..i + 1][i] == team[i];
      result := Upsert(result, team[i]);
      i := i + 1;
    }
    assert team[..i] == team;
  }

  // ---------------------------------------------------------------- the project table

  /** A row of the project table (dates are day numbers). */
  datatype ProjectRow = ProjectRow(
    id: Id,
    code: string,
    name: string,
    description: string,
    visibility: Visibility,
    productObjective: string,
    definitionOfDone: Option<string>,
    sprintDuration: int,
    qualityCriteria: string,
    status: string,
    startDate: int,
    endDate: Option<int>,
    ownerId: Id,
    archivedAt: Option<int>)

  /** The fields of a creation request. */
  datatype CreateProject = CreateProject(
    name: string,
    description: string,
    visibility: Option<Visibility>,
    productObjective: string,
    definitionOfDone: Option<string>,
    sprintDuration: Option<int>,
    qualityCriteria: string,
    status: Option<string>,
    startDate: int,
    endDate: Option<int>,
    teamMembers: seq<TeamMember>)

  /** An update of a date field: left out, set to null (an empty value) or set. */
  datatype DateUpdate = Unchanged | Cleared | SetTo(day: int)

  /** The fields of an update request; absent fields are left alone. */
  datatype UpdateProject = UpdateProject(
    name: Option<string>,
    description: Option<string>,
    visibility: Option<Visibility>,
    productObjective: Option<string>,
    definitionOfDone: Option<Option<string>>,
    sprintDuration: Option<int>,
    qualityCriteria: Option<string>,
    status: Option<string>,
    startDate: Option<int>,
    endDate: DateUpdate,
    teamMembers: Option<seq<TeamMember>>)

  /** The scalar part of `update`: the row with the given fields written. */
  function UpdatedRow(row: ProjectRow, dto: UpdateProject): (r: ProjectRow)
    ensures r.id == row.id && r.code == row.code && r.ownerId == row.ownerId && r.archivedAt == row.archivedAt
  {
    row.(
      name := if dto.name.Some? && dto.name.value != "" then Text.Trim(dto.name.value) else row.name,
      description := if dto.description.Some? then Text.Trim(dto.description.value) else row.description,
      visibility := dto.visibility.GetOr(row.visibility),
      productObjective := if dto.productObjective.Some? then Text.Trim(dto.productObjective.value) else row.productObjective,
      definitionOfDone := if dto.definitionOfDone.Some? then NormalizeOptional(dto.definitionOfDone.value) else row.definitionOfDone,
      qualityCriteria := if dto.qualityCriteria.Some? then Text.Trim(dto.qualityCriteria.value) else row.qualityCriteria,
      status := dto.status.GetOr(row.status),
      startDate := dto.startDate.GetOr(row.startDate),
      endDate := match dto.endDate case Unchanged => row.endDate case Cleared => None case SetTo(d) => Some(d),
      sprintDuration := dto.sprintDuration.GetOr(row.sprintDuration))
  }

  /** The guards of `update` before any write, in the order the service applies them:
      the caller must own the project or be an administrator, given dates must make a valid
      schedule, only the owner may send a team, and a non-zero sprint duration must be 1 to
      4 weeks (0 is falsy in `if (projectFields.sprintDuration)` and skips the range check). */
  function UpdateCheck(row: ProjectRow, dto: UpdateProject, userId: Id, isAdmin: bool): (r: Option<Failure>)
    ensures r.None? <==> ((isAdmin || row.ownerId == userId)
      && (dto.startDate.Some? || dto.endDate.SetTo? ==> ScheduleCheck(dto.startDate.GetOr(row.startDate), NewEnd(row, dto)).None?)
      && (dto.teamMembers.Some? ==> row.ownerId == userId)
      && (dto.sprintDuration.Some? && dto.sprintDuration.value != 0 ==> 1 <= dto.sprintDuration.value <= 4))
    ensures !isAdmin && row.ownerId != userId ==> r.Some? && r.value.Forbidden?
  {
    if !isAdmin && row.ownerId != userId then Some(Forbidden("only the owner or an administrator may update"))
    else if (dto.startDate.Some? || dto.endDate.SetTo?) && ScheduleCheck(dto.startDate.GetOr(row.startDate), NewEnd(row, dto)).Some? then
      ScheduleCheck(dto.startDate.GetOr(row.startDate), NewEnd(row, dto))
    else if dto.teamMembers.Some? && row.ownerId != userId then Some(Forbidden("only the owner may edit the team"))
    else if dto.sprintDuration.Some? && dto.sprintDuration.value != 0 && !(1 <= dto.sprintDuration.value <= 4) then
      Some(BadRequest("sprint duration must be 1 to 4 weeks"))
    else None
  }

  /** The end date the schedule check of `update` uses: the given one, else the stored one. */
  function NewEnd(row: ProjectRow, dto: UpdateProject): Option<int> {
    if dto.endDate.SetTo? then Some(dto.endDate.day) else row.endDate
  }

  /** The row `create` inserts: trimmed texts, the normalised definition of done, and the
      defaults PRIVATE, PLANNING and two-week sprints. */
  function NewRow(dto: CreateProject, id: Id, code: string, ownerId: Id): (row: ProjectRow)
    ensures row.id == id && row.code == code && row.ownerId == ownerId && row.name == Text.Trim(dto.name)
    ensures row.visibility == dto.visibility.GetOr(PRIVATE) && row.status == dto.status.GetOr("PLANNING")
    ensures row.sprintDuration == dto.sprintDuration.GetOr(DefaultSprintDurationWeeks)
    ensures row.definitionOfDone == NormalizeOptional(dto.definitionOfDone)
    ensures row.startDate == dto.startDate && row.endDate == dto.endDate && row.archivedAt.None?
  {
    ProjectRow(id, code, Text.Trim(dto.name), Text.Trim(dto.description), dto.visibility.GetOr(PRIVATE),
      Text.Trim(dto.productObjective), NormalizeOptional(dto.definitionOfDone),
      dto.sprintDuration.GetOr(DefaultSprintDurationWeeks), Text.Trim(dto.qualityCriteria),
      dto.status.GetOr("PLANNING"), dto.startDate, dto.endDate, ownerId, None)
  }

  /** The project table, the member rows of each project, and the user table. */
  class ProjectsService {
    var projects: map<Id, ProjectRow>
    var members: map<Id, seq<Member>>
    var users: seq<User>

    /** Every project is stored under its id with its member rows, and `name` is a unique
        column: no two projects share a name. */
    predicate Valid()
      reads this
    {
      (forall id :: id in projects ==> projects[id].id == id && id in members && DistinctMembers(members[id]))
      && forall a, b :: a in projects && b in projects && projects[a].name == projects[b].name ==> a == b
    }

    constructor(users0: seq<User>)
      ensures Valid() && projects == map[] && members == map[] && users == users0
    {
      projects := map[];
      members := map[];
      users := users0;
    }

    /** The view the shared access rules take of a project. */
    function View(id: Id): Project
      reads this
      requires id in projects && id in members
    {
      Project(projects[id].ownerId, projects[id].visibility, members[id])
    }

    /** The codes the project table holds. */
    function Codes(): set<string>
      reads this
    {
      set p | p in projects :: projects[p].code
    }

    /** Some project already has this name. */
    predicate NameTaken(name: string)
      reads this
    {
      exists p :: p in projects && projects[p].name == name
    }

    /** A project other than `id` already has this name: writing it to `id` violates the
        unique `name` column (Prisma's P2002), which rolls the transaction back. */
    predicate NameClash(id: Id, name: string)
      reads this
    {
      exists p :: p in projects && p != id && projects[p].name == name
    }

    /** `create`. `id` is the id the database assigns, `year` the current year. */
    method Create(dto: CreateProject, userId: Id, id: Id, year: nat, now: int) returns (r: Result<ProjectRow, Failure>)
      requires Valid() && id !in projects
      modifies this
      ensures Valid() && users == old(users)
      ensures FindById(users, userId).None? ==> r.Err? && r.error.NotFound?
      ensures FindById(users, userId).Some? && !users[FindById(users, userId).value].isActive ==> r.Err? && r.error.Forbidden?
      ensures old(NameTaken(Text.Trim(dto.name))) ==> r.Err?
      ensures r.Err? ==> projects == old(projects) && members == old(members)
      ensures var found := FindById(users, userId);
        var team := TeamAssignments(dto.teamMembers, userId, false, users, now);
        var admitted := found.Some? && users[found.value].isActive && !old(NameTaken(Text.Trim(dto.name)));
        (r.Ok? <==> admitted && ScheduleCheck(dto.startDate, dto.endDate).None? && team.Ok?)
        && (found.Some? && users[found.value].isActive && old(NameTaken(Text.Trim(dto.name))) ==> r.Err? && r.error.Conflict?)
        && (admitted && ScheduleCheck(dto.startDate, dto.endDate).Some? ==> r == Err(ScheduleCheck(dto.startDate, dto.endDate).value))
        && (admitted && ScheduleCheck(dto.startDate, dto.endDate).None? && team.Err? ==> r == Err(team.error))
      ensures r.Ok? ==> ScheduleCheck(dto.startDate, dto.endDate).None?
      ensures r.Ok? ==> r.value == NewRow(dto, id, r.value.code, userId) && r.value.code !in old(Codes())
      ensures r.Ok? ==> var initials := Initials(Text.Trim(dto.name));
        (BaseCode(initials, year) !in old(Codes()) ==> r.value.code == BaseCode(initials, year))
        && (BaseCode(initials, year) in old(Codes()) ==>
              exists k :: k >= 1 && r.value.code == SuffixedCode(initials, year, k)
                && forall j :: 1 <= j < k ==> SuffixedCode(initials, year, j) in old(Codes()))
      ensures r.Ok? ==> projects == old(projects)[id := r.value]
      ensures r.Ok? ==> var team := TeamAssignments(dto.teamMembers, userId, false, users, now);
        team.Ok? && members == old(members)[id := ReplaceTeam([], team.value.assignments)]
    {
      var found := FindById(users, userId);
      if found.None? {
        return Err(NotFound("user"));
      }
      if !users[found.value].isActive {
        return Err(Forbidden("inactive users cannot create projects"));
      }
      var name := Text.Trim(dto.name);
      if NameTaken(name) {
        return Err(Conflict("a project with that name exists"));
      }
      var schedule := ScheduleCheck(dto.startDate, dto.endDate);
      if schedule.Some? {
        return Err(schedule.value);
      }
      var team := BuildTeamAssignments(dto.teamMembers, userId, false, users, now);
      if team.Err? {
        return Err(team.error);
      }
      var code := GenerateProjectCode(name, year, Codes());
      var row := NewRow(dto, id, code, userId);
      Insert(row, ReplaceTeam([], team.value.assignments));
      r := Ok(row);
    }

    /** The writes of `create`'s transaction: the project row and its member rows. */
    method Insert(row: ProjectRow, rows: seq<Member>)
      requires Valid() && row.id !in projects && DistinctMembers(rows) && !NameTaken(row.name)
      modifies this
      ensures Valid() && users == old(users)
      ensures projects == old(projects)[row.id := row] && members == old(members)[row.id := rows]
    {
      projects := projects[row.id := row];
      members := members[row.id := rows];
    }

    /** `findAll`: the projects listed to the caller are exactly those `findOne` lets the
        caller read. */
    method FindAll(userId: Id, isAdmin: bool) returns (r: set<Id>)
      requires Valid()
      ensures forall id :: id in r <==> id in projects && CanRead(View(id), userId, isAdmin)
    {
      r := set id | id in projects && CanRead(View(id), userId, isAdmin);
    }

    /** `findUserProjects`: the projects the user owns or has a member row in, whether that
        membership is active or not. */
    method FindUserProjects(userId: Id) returns (r: set<Id>)
      requires Valid()
      ensures forall id :: id in r <==>
        (id in projects && (projects[id].ownerId == userId || exists m :: m in members[id] && m.userId == userId))
    {
      var rows := projects;
      var ms := members;
      r := set id: Id | id in rows && id in ms && (rows[id].ownerId == userId || exists m: Member :: m in ms[id] && m.userId == userId);
    }

    /** `findOne`. */
    method FindOne(id: Id, userId: Id, isAdmin: bool) returns (r: Result<ProjectRow, Failure>)
      requires Valid()
      ensures id !in projects ==> r.Err? && r.error.NotFound?
      ensures id in projects ==>
        (CanRead(View(id), userId, isAdmin) ==> r == Ok(projects[id]))
        && (!CanRead(View(id), userId, isAdmin) ==> r.Err? && r.error.Forbidden?)
    {
      if id !in projects {
        return Err(NotFound("project"));
      }
      if !CanRead(View(id), userId, isAdmin) {
        return Err(Forbidden("no access to this project"));
      }
      r := Ok(projects[id]);
    }

    /** `update`: the guards, the scalar fields, and with a team list the member rows and
        possibly a new owner. */
    method Update(id: Id, dto: UpdateProject, userId: Id, isAdmin: bool, now: int) returns (r: Result<ProjectRow, Failure>)
      requires Valid()
      modifies this
      ensures Valid() && users == old(users)
      ensures id !in old(projects) ==> r.Err? && r.error.NotFound?
      ensures r.Err? ==> projects == old(projects) && members == old(members)
      ensures id in old(projects) ==>
        var row := old(projects)[id];
        var clash := old(NameClash(id, UpdatedRow(row, dto).name));
        (UpdateCheck(row, dto, userId, isAdmin).Some? ==> r == Err(UpdateCheck(row, dto, userId, isAdmin).value))
        && (UpdateCheck(row, dto, userId, isAdmin).None? && dto.teamMembers.None? ==>
              (clash ==> r.Err? && r.error.Conflict?)
              && (!clash ==> r == Ok(UpdatedRow(row, dto)) && projects == old(projects)[id := r.value] && members == old(members)))
        && (UpdateCheck(row, dto, userId, isAdmin).None? && dto.teamMembers.Some? ==>
              var team := TeamAssignments(dto.teamMembers.value, row.ownerId, true, users, now);
              (team.Err? ==> r == Err(team.error))
              && (team.Ok? && clash ==> r.Err? && r.error.Conflict?)
              && (team.Ok? && !clash ==> (r == Ok(UpdatedRow(row, dto).(ownerId := team.value.nextOwnerId))
                    && projects == old(projects)[id := r.value]
                    && members == old(members)[id := ReplaceTeam(old(members)[id], team.value.assignments)])))
      ensures r.Ok? ==> !old(NameClash(id, r.value.name))
      ensures id in old(projects) && dto.name.Some? && dto.name.value != "" && old(NameClash(id, Text.Trim(dto.name.value))) ==> r.Err?
    {
      if id !in projects {
        return Err(NotFound("project"));
      }
      var row := projects[id];
      var check := UpdateCheck(row, dto, userId, isAdmin);
      if check.Some? {
        return Err(check.value);
      }
      var updated := UpdatedRow(row, dto);
      if dto.teamMembers.None? {
        if NameClash(id, updated.name) {
          return Err(Conflict("a project with that name exists"));
        }
        Write(updated, members[id]);
        return Ok(updated);
      }
      var team := BuildTeamAssignments(dto.teamMembers.value, row.ownerId, true, users, now);
      if team.Err? {
        return Err(team.error);
      }
      if NameClash(id, updated.name) {
        return Err(Conflict("a project with that name exists"));
      }
      updated := updated.(ownerId := team.value.nextOwnerId);
      var kept := ReplaceMembers(members[id], team.value.assignments);
      Write(updated, kept);
      r := Ok(updated);
    }

    /** The writes of `update`'s transaction: the project row, under its own name or a name
        no other project holds, and its member rows. */
    method Write(row: ProjectRow, rows: seq<Member>)
      requires Valid() && row.id in projects && !NameClash(row.id, row.name) && DistinctMembers(rows)
      modifies this
      ensures Valid() && users == old(users)
      ensures projects == old(projects)[row.id := row] && members == old(members)[row.id := rows]
    {
      projects := projects[row.id := row];
      members := members[row.id := rows];
    }

    /** `remove`: archives the project. */
    method Remove(id: Id, userId: Id, isAdmin: bool, now: int) returns (r: Result<ProjectRow, Failure>)
      requires Valid()
      modifies this
      ensures Valid() && users == old(users) && members == old(members)
      ensures id !in old(projects) ==> r.Err? && r.error.NotFound? && projects == old(projects)
      ensures id in old(projects) && !isAdmin && old(projects)[id].ownerId != userId ==>
        r.Err? && r.error.Forbidden? && projects == old(projects)
      ensures id in old(projects) && (isAdmin || old(projects)[id].ownerId == userId) ==>
        r == Ok(old(projects)[id].(status := "ARCHIVED", archivedAt := Some(now))) && projects == old(projects)[id := r.value]
    {
      if id !in projects {
        return Err(NotFound("project"));
      }
      if !isAdmin && projects[id].ownerId != userId {
        return Err(Forbidden("only the owner or an administrator may archive"));
      }
      var row := projects[id].(status := "ARCHIVED", archivedAt := Some(now));
      projects := projects[id := row];
      r := Ok(row);
    }
  }
}
