/** The product backlog: user stories with their acceptance criteria and tags, the
    `US-nnn` codes stories are numbered with, and the ranking the Product Owner sets by
    reordering. */
module Stories {
  import opened Wrappers
  import opened Scrum
  import opened Backlog
  import Text
  import Collections

  // ---------------------------------------------------------------------------
  // Acceptance criteria: a list in the API, one newline-joined text in the table.

  /** Each item trimmed (`items.map(item => item.trim())`). */
  function Trims(items: seq<string>): (r: seq<string>)
    ensures |r| == |items|
  {
    if items == [] then [] else [Text.Trim(items[0])] + Trims(items[1..])
  }

  /** Position `k` of `Trims(items)` holds the trimmed `items[k]`. */
  lemma {:induction false} TrimsAt(items: seq<string>, k: nat)
    requires k < |items|
    ensures Trims(items)[k] == Text.Trim(items[k])
  {
    if k > 0 {
      TrimsAt(items[1..], k - 1);
    }
  }

  lemma {:induction false} TrimsSnoc(items: seq<string>, x: string)
    ensures Trims(items + [x]) == Trims(items) + [Text.Trim(x)]
  {
    if items != [] {
      TrimsSnoc(items[1..], x);
      assert (items + [x])[1..] == items[1..] + [x];
    }
  }

  /** Whatever comes out of trimming is already trimmed. */
  lemma TrimsAreTrimmed(items: seq<string>, x: string)
    requires x in Trims(items)
    ensures Text.Trim(x) == x
  {
    var j :| 0 <= j < |items| && Trims(items)[j] == x;
    TrimsAt(items, j);
    Text.TrimIdempotent(items[j]);
  }

  /** `map(trim).filter(item => item.length > 0)`: the non-blank items, trimmed, in order. */
  function TrimmedItems(items: seq<string>): (r: seq<string>)
    ensures |r| <= |items|
    ensures forall x :: x in r <==> x != [] && x in Trims(items)
  {
    if items == [] then []
    else
      var t := Text.Trim(items[0]);
      var rest := TrimmedItems(items[1..]);
      assert Trims(items) == [t] + Trims(items[1..]);
      (if t != [] then [t] else []) + rest
  }

  /** Items that are already trimmed and non-blank pass through unchanged. */
  lemma {:induction false} TrimmedItemsOfTrimmed(items: seq<string>)
    requires forall k :: 0 <= k < |items| ==> items[k] != [] && Text.Trim(items[k]) == items[k]
    ensures TrimmedItems(items) == items
  {
    if items != [] {
      TrimmedItemsOfTrimmed(items[1..]);
      assert TrimmedItems(items) == (if Text.Trim(items[0]) != [] then [Text.Trim(items[0])] else []) + TrimmedItems(items[1..]);
    }
  }

  /** The list `serializeStory` reports for the stored text (a missing text gives `[]`). */
  function SerializeAcceptance(stored: Option<string>): (r: seq<string>)
    ensures stored.None? ==> r == []
  {
    match stored
    case None => []
    case Some(s) => TrimmedItems(Text.Split(s, '\n'))
  }

  /** `normalizeAcceptance`: the text stored for a list of criteria. */
  function NormalizeAcceptance(criteria: seq<string>): string {
    Text.Join(TrimmedItems(criteria), '\n')
  }

  /** A join of pieces whose first piece is non-empty is non-empty. */
  lemma JoinNonEmpty(xs: seq<string>, sep: char)
    requires xs != [] && xs[0] != []
    ensures Text.Join(xs, sep) != []
  {
    if |xs| > 1 {
      assert Text.Join(xs, sep) == xs[0] + [sep] + Text.Join(xs[1..], sep);
    }
  }

  /** The stored text is empty (and creation refuses the story) exactly when every
      criterion is blank. */
  lemma NormalizeAcceptanceEmptyIff(criteria: seq<string>)
    ensures NormalizeAcceptance(criteria) == [] <==> forall k :: 0 <= k < |criteria| ==> Text.AllSpace(criteria[k])
  {
    var items := TrimmedItems(criteria);
    if items != [] {
      assert items[0] in items;
      JoinNonEmpty(items, '\n');
      assert items[0] in Trims(criteria);
      var k :| 0 <= k < |criteria| && Trims(criteria)[k] == items[0];
      TrimsAt(criteria, k);
      Text.TrimEmptyIffAllSpace(criteria[k]);
    } else {
      forall k | 0 <= k < |criteria| ensures Text.AllSpace(criteria[k]) {
        assert Trims(criteria)[k] in Trims(criteria);
        TrimsAt(criteria, k);
        Text.TrimEmptyIffAllSpace(criteria[k]);
      }
    }
  }

  /** Round trip: reading back the stored text yields exactly the trimmed, non-blank
      criteria in their order, provided no criterion contains a newline. */
  lemma AcceptanceRoundTrip(criteria: seq<string>)
    requires forall k :: 0 <= k < |criteria| ==> '\n' !in criteria[k]
    ensures SerializeAcceptance(Some(NormalizeAcceptance(criteria))) == TrimmedItems(criteria)
  {
    var items := TrimmedItems(criteria);
    if items == [] {
      assert Text.Split("", '\n') == [""];
      assert Text.Trim("") == "";
      assert TrimmedItems([""]) == TrimmedItems([""][1..]);
    } else {
      ItemsLackNewline(criteria);
      Text.SplitJoin(items, '\n');
      ItemsAreTrimmed(criteria);
      TrimmedItemsOfTrimmed(items);
    }
  }

  /** Trimming keeps out a newline that no criterion holds. */
  lemma ItemsLackNewline(criteria: seq<string>)
    requires forall k :: 0 <= k < |criteria| ==> '\n' !in criteria[k]
    ensures forall k :: 0 <= k < |TrimmedItems(criteria)| ==> '\n' !in TrimmedItems(criteria)[k]
  {
    var items := TrimmedItems(criteria);
    forall k | 0 <= k < |items| ensures '\n' !in items[k] {
      assert items[k] in Trims(criteria);
      var j :| 0 <= j < |criteria| && Trims(criteria)[j] == items[k];
      TrimsAt(criteria, j);
      Text.TrimKeepsOut(criteria[j], '\n');
    }
  }

  /** Every kept item is non-blank and already trimmed. */
  lemma ItemsAreTrimmed(criteria: seq<string>)
    ensures forall k :: 0 <= k < |TrimmedItems(criteria)| ==>
      TrimmedItems(criteria)[k] != [] && Text.Trim(TrimmedItems(criteria)[k]) == TrimmedItems(criteria)[k]
  {
    var items := TrimmedItems(criteria);
    forall k | 0 <= k < |items| ensures items[k] != [] && Text.Trim(items[k]) == items[k] {
      assert items[k] in items;
      TrimsAreTrimmed(criteria, items[k]);
    }
  }

  // ---------------------------------------------------------------------------
  // Tags

  /** A tag is kept when it is 1 to 40 UTF-16 code units long after trimming. */
  predicate KeepTag(t: string) {
    0 < Text.Utf16Length(t) <= 40
  }

  /** Without astral characters the limit is 40 characters. */
  lemma BmpTagLimit(t: string)
    requires forall i :: 0 <= i < |t| ==> !Text.IsAstral(t[i])
    ensures KeepTag(t) <==> 0 < |t| <= 40
  {
    Text.Utf16LengthCounts(t);
  }

  /** A tag made only of astral characters, such as emoji, is kept up to 20 characters:
      each counts as two code units. */
  lemma AstralTagLimit(t: string)
    requires forall i :: 0 <= i < |t| ==> Text.IsAstral(t[i])
    ensures KeepTag(t) <==> 0 < |t| <= 20
  {
    Text.Utf16LengthCounts(t);
  }

  /** The trimmed tags that are kept, in input order, repeats included. */
  function TagCandidates(tags: seq<string>): (r: seq<string>)
    ensures forall t :: t in r <==> KeepTag(t) && t in Trims(tags)
  {
    if tags == [] then []
    else
      var init := tags[..|tags| - 1];
      var t := Text.Trim(tags[|tags| - 1]);
      TrimsSnoc(init, tags[|tags| - 1]);
      assert tags == init + [tags[|tags| - 1]];
      TagCandidates(init) + (if KeepTag(t) then [t] else [])
  }

  /** What `normalizeTags` returns: the kept tags, each once, in order of first occurrence
      (the iteration order of a JavaScript `Set`). */
  function NormalizedTags(tags: seq<string>): (r: seq<string>)
    ensures Collections.NoDuplicates(r)
    ensures forall t :: t in r <==> KeepTag(t) && t in Trims(tags)
  {
    Collections.Distinct(TagCandidates(tags))
  }

  /** `normalizeTags`: adds each kept tag to a set, then lists the set. An absent list is
      passed as the empty list; both give `[]`. */
  method NormalizeTags(tags: seq<string>) returns (r: seq<string>)
    ensures r == NormalizedTags(tags)
  {
    r := [];
    for i := 0 to |tags|
      invariant r == Collections.Distinct(TagCandidates(tags[..i]))
    {
      var trimmed := Text.Trim(tags[i]);
      NormalizeStep(tags, i, r);
      if 0 < Text.Utf16Length(trimmed) <= 40 && trimmed !in r {
        r := r + [trimmed];
      }
    }
    assert tags[..|tags|] == tags;
  }

  /** One step of `normalizeTags`: the next tag is added when it is kept and new. */
  lemma NormalizeStep(tags: seq<string>, i: nat, r: seq<string>)
    requires i < |tags| && r == Collections.Distinct(TagCandidates(tags[..i]))
    ensures Collections.Distinct(TagCandidates(tags[..i + 1])) ==
      if KeepTag(Text.Trim(tags[i])) && Text.Trim(tags[i]) !in r then r + [Text.Trim(tags[i])] else r
  {
    var trimmed := Text.Trim(tags[i]);
    var seen := TagCandidates(tags[..i]);
    assert tags[..i + 1] == tags[..i] + [tags[i]];
    TagCandidatesSnoc(tags[..i], tags[i]);
    if KeepTag(trimmed) {
      assert TagCandidates(tags[..i + 1]) == seen + [trimmed];
      Collections.DistinctSnoc(seen, trimmed);
    } else {
      assert TagCandidates(tags[..i + 1]) == seen + [];
      assert seen + [] == seen;
    }
  }

  /** Appending a tag appends its trimmed form when it is kept. */
  lemma TagCandidatesSnoc(tags: seq<string>, x: string)
    ensures TagCandidates(tags + [x]) == TagCandidates(tags) + (if KeepTag(Text.Trim(x)) then [Text.Trim(x)] else [])
  {
    assert (tags + [x])[..|tags + [x]| - 1] == tags;
  }

  /** Every tag of the list is kept and already trimmed. */
  predicate AllKept(tags: seq<string>) {
    forall t :: t in tags ==> KeepTag(t) && Text.Trim(t) == t
  }

  /** Kept, trimmed tags are their own candidates. */
  lemma {:induction false} CandidatesOfKept(tags: seq<string>)
    requires AllKept(tags)
    ensures TagCandidates(tags) == tags
  {
    if tags != [] {
      var init := tags[..|tags| - 1];
      var x := tags[|tags| - 1];
      assert tags == init + [x];
      AllKeptSnoc(init, x);
      CandidatesOfKept(init);
      KeptCandidateSnoc(init, x);
    }
  }

  /** Dropping the last tag of a kept list leaves a kept list. */
  lemma AllKeptSnoc(tags: seq<string>, x: string)
    requires AllKept(tags + [x])
    ensures AllKept(tags) && KeepTag(x) && Text.Trim(x) == x
  {
    assert x in tags + [x];
    forall t | t in tags ensures KeepTag(t) && Text.Trim(t) == t {
      assert t in tags + [x];
    }
  }

  /** A kept, trimmed tag appended to its own candidates stays. */
  lemma KeptCandidateSnoc(tags: seq<string>, x: string)
    requires TagCandidates(tags) == tags && KeepTag(x) && Text.Trim(x) == x
    ensures TagCandidates(tags + [x]) == tags + [x]
  {
    TagCandidatesSnoc(tags, x);
  }

  /** Normalising a normalised tag list changes nothing. */
  lemma NormalizedTagsIdempotent(tags: seq<string>)
    ensures NormalizedTags(NormalizedTags(tags)) == NormalizedTags(tags)
  {
    var r := NormalizedTags(tags);
    forall t | t in r ensures KeepTag(t) && Text.Trim(t) == t {
      TrimsAreTrimmed(tags, t);
    }
    CandidatesOfKept(r);
    Collections.DistinctOfDistinct(r);
  }

  /** `updateTags`' plan: the values to delete and the values to insert for a story whose
      current tags are `current`. */
  function TagChanges(current: set<string>, next: seq<string>): (r: (set<string>, set<string>))
    ensures (current - r.0) + r.1 == set t | t in next
    ensures r.0 <= current && r.1 !! current
    ensures r.0 !! (set t | t in next) && r.1 <= set t | t in next
  {
    var nextValues := set t | t in next;
    (current - nextValues, nextValues - current)
  }

  // ---------------------------------------------------------------------------
  // Story codes

  /** A `US-` at position `i` followed by a digit: where `/US-(\d+)/` can match. */
  predicate UsAt(s: string, i: nat) {
    i + 3 < |s| && s[i..i + 3] == "US-" && Text.IsDigit(s[i + 3])
  }

  /** `code.match(/US-(\d+)/)?.[1]`: the digits after the leftmost `US-` that is followed
      by a digit, taken greedily. */
  function UsDigits(s: string): (r: Option<string>)
    ensures r.Some? <==> exists i :: 0 <= i < |s| && UsAt(s, i)
    ensures r.Some? ==> r.value != [] && Text.AllDigits(r.value)
    decreases |s|
  {
    if |s| < 4 then None
    else if UsAt(s, 0) then
      var n := Text.DigitRunLength(s[3..]);
      assert s[3..][..n] == s[3..3 + n];
      Some(s[3..3 + n])
    else
      UsAtShift(s);
      UsDigits(s[1..])
  }

  /** A match position of `s` other than 0 is a match position of `s[1..]`, one earlier. */
  lemma UsAtShift(s: string)
    requires s != []
    ensures (exists i :: 0 <= i < |s| && UsAt(s, i)) <==> UsAt(s, 0) || exists i :: 0 <= i < |s| - 1 && UsAt(s[1..], i)
  {
    forall i | 0 <= i < |s| - 1 ensures UsAt(s[1..], i) <==> UsAt(s, i + 1) {
      if i + 4 < |s| {
        assert s[1..][i..i + 3] == s[i + 1..i + 4];
      }
    }
    if exists i :: 0 <= i < |s| && UsAt(s, i) {
      var i :| 0 <= i < |s| && UsAt(s, i);
      if i > 0 {
        assert UsAt(s[1..], i - 1);
      }
    }
    if exists i :: 0 <= i < |s| - 1 && UsAt(s[1..], i) {
      var i :| 0 <= i < |s| - 1 && UsAt(s[1..], i);
      assert UsAt(s, i + 1);
    }
  }

  /** The story number a code carries, if any. */
  function UsNumber(code: string): (n: Option<nat>)
    ensures n.Some? <==> UsDigits(code).Some?
  {
    match UsDigits(code)
    case None => None
    case Some(d) => Some(Text.DigitsValue(d))
  }

  /** The largest story number among the codes, 0 when none carries one. */
  function MaxUsNumber(codes: seq<string>): (m: nat)
    ensures forall k :: 0 <= k < |codes| && UsNumber(codes[k]).Some? ==> UsNumber(codes[k]).value <= m
    ensures m == 0 || exists k :: 0 <= k < |codes| && UsNumber(codes[k]) == Some(m)
  {
    if codes == [] then 0
    else
      var m := MaxUsNumber(codes[..|codes| - 1]);
      var n := UsNumber(codes[|codes| - 1]);
      assert forall k :: 0 <= k < |codes| - 1 ==> codes[..|codes| - 1][k] == codes[k];
      if n.Some? && n.value > m then n.value else m
  }

  /** The code of story number `n`: `US-` and the number, zero-padded to three digits. */
  function CodeFor(n: nat): string {
    "US-" + Text.PadStart(Text.NatToString(n), 3, '0')
  }

  /** `generateCode`: scans the project's codes for the largest number; the new story
      gets the next one. */
  method GenerateCode(codes: seq<string>) returns (code: string)
    ensures code == CodeFor(MaxUsNumber(codes) + 1)
  {
    var maxNumber := 0;
    for i := 0 to |codes|
      invariant maxNumber == MaxUsNumber(codes[..i])
    {
      assert codes[..i + 1][..i] == codes[..i];
      var value := UsNumber(codes[i]);
      if value.Some? && value.value > maxNumber {
        maxNumber := value.value;
      }
    }
    assert codes[..|codes|] == codes;
    var nextNumber := maxNumber + 1;
    code := "US-" + Text.PadStart(Text.NatToString(nextNumber), 3, '0');
  }

  /** Padding to three places puts zeros in front. */
  lemma PadIsZeros(digits: string)
    ensures Text.PadStart(digits, 3, '0') == Text.Repeat('0', |Text.PadStart(digits, 3, '0')| - |digits|) + digits
  {
    if |digits| >= 3 {
      assert Text.Repeat('0', 0) == [];
    }
  }

  /** `US-` followed by nothing but digits matches with all of those digits. */
  lemma UsDigitsOfCode(digits: string)
    requires Text.AllDigits(digits) && digits != []
    ensures UsDigits("US-" + digits) == Some(digits)
  {
    var s := "US-" + digits;
    assert s[3..] == digits + [];
    assert s[..3] == "US-";
    assert UsAt(s, 0);
    Text.DigitRunOf(digits, []);
    assert s[3..3 + |digits|] == digits;
  }

  /** A generated code reads back as its number. */
  lemma CodeReadsBack(n: nat)
    ensures UsNumber(CodeFor(n)) == Some(n)
  {
    var digits := Text.NatToString(n);
    var padded := Text.PadStart(digits, 3, '0');
    PadIsZeros(digits);
    Text.DigitsValueLeadingZeros(|padded| - |digits|, digits);
    Text.DigitsValueOfNatToString(n);
    UsDigitsOfCode(padded);
  }

  /** The code of a number above every number in use is not in use. */
  lemma FreshAbove(codes: seq<string>, m: nat)
    requires forall k :: 0 <= k < |codes| && UsNumber(codes[k]).Some? ==> UsNumber(codes[k]).value <= m
    ensures CodeFor(m + 1) !in codes
  {
    CodeReadsBack(m + 1);
    forall k | 0 <= k < |codes| ensures codes[k] != CodeFor(m + 1) {
      if UsNumber(codes[k]).Some? {
        assert UsNumber(codes[k]).value <= m;
      }
    }
  }

  // ---------------------------------------------------------------------------
  // The story table

  /** The codes of a project's stories, in table order. */
  function ProjectCodes(rows: seq<Story>, projectId: Id): (r: seq<string>)
    ensures forall c :: c in r <==> exists k :: 0 <= k < |rows| && rows[k].projectId == projectId && rows[k].code == c
  {
    if rows == [] then []
    else
      assert forall k :: 1 <= k < |rows| ==> rows[1..][k - 1] == rows[k];
      (if rows[0].projectId == projectId then [rows[0].code] else []) + ProjectCodes(rows[1..], projectId)
  }

  /** `(_max.orderRank ?? 0) + 1`: a rank above every rank in the project. */
  function NextRank(rows: seq<Story>, projectId: Id): (n: int)
    ensures forall k :: 0 <= k < |rows| && rows[k].projectId == projectId ==> rows[k].orderRank < n
    ensures (forall k :: 0 <= k < |rows| ==> rows[k].projectId != projectId) ==> n == 1
    ensures n == 1 || exists k :: 0 <= k < |rows| && rows[k].projectId == projectId && rows[k].orderRank == n - 1
  {
    if rows == [] then 1
    else
      var m := NextRank(rows[..|rows| - 1], projectId);
      var last := rows[|rows| - 1];
      assert forall k :: 0 <= k < |rows| - 1 ==> rows[..|rows| - 1][k] == rows[k];
      var isFirst := forall k :: 0 <= k < |rows| - 1 ==> rows[k].projectId != projectId;
      if last.projectId != projectId then m
      else if isFirst || last.orderRank + 1 > m then last.orderRank + 1
      else m
  }

  /** The create request. */
  datatype CreateStory = CreateStory(
    title: string,
    asA: string,
    iWant: string,
    soThat: string,
    acceptanceCriteria: seq<string>,
    description: Option<string>,
    priority: int,
    businessValue: Option<int>,
    estimateHours: Option<real>,
    status: Option<StoryStatus>,
    tags: seq<string>)

  /** `row` with the given rank as both its priority and its order rank. */
  function Ranked(row: Story, rank: int): Story {
    row.(priority := rank, orderRank := rank)
  }

  /** The table after one `update({ where: { id }, data: { priority, orderRank } })`. */
  function SetRank(rows: seq<Story>, id: Id, rank: int): (r: seq<Story>)
    ensures |r| == |rows|
    ensures forall k :: 0 <= k < |rows| ==> r[k] == if rows[k].id == id then Ranked(rows[k], rank) else rows[k]
  {
    seq(|rows|, k requires 0 <= k < |rows| => if rows[k].id == id then Ranked(rows[k], rank) else rows[k])
  }

  /** Where `reorder` leaves a row: a listed story is ranked by its position in the list
      (counting from 1), any other row is untouched. */
  function Reordered(row: Story, storyIds: seq<Id>): Story {
    if row.id in storyIds then Ranked(row, Collections.IndexOf(storyIds, row.id) + 1) else row
  }

  /** After the first `index` updates of `reorder`: exactly the rows listed so far are
      ranked. */
  predicate RankedUpTo(before: seq<Story>, rows: seq<Story>, storyIds: seq<Id>, index: nat) {
    index <= |storyIds| && |rows| == |before|
    && forall k :: 0 <= k < |rows| ==>
      rows[k] == if before[k].id in storyIds[..index] then Reordered(before[k], storyIds) else before[k]
  }

  /** One more update of `reorder` ranks the next listed story and nothing else. */
  lemma RankStep(before: seq<Story>, rows: seq<Story>, storyIds: seq<Id>, index: nat)
    requires Collections.NoDuplicates(storyIds) && index < |storyIds| && RankedUpTo(before, rows, storyIds, index)
    ensures RankedUpTo(before, SetRank(rows, storyIds[index], index + 1), storyIds, index + 1)
  {
    Collections.IndexOfDistinct(storyIds, index);
    assert storyIds[..index + 1] == storyIds[..index] + [storyIds[index]];
    forall k | 0 <= k < |rows| && before[k].id in storyIds[..index]
      ensures before[k].id != storyIds[index]
    {
      var j :| 0 <= j < index && storyIds[j] == before[k].id;
    }
  }

  /** Once every listed story is ranked, the ids are those before and each listed story
      carries its position in the list. */
  lemma ReorderDone(before: seq<Story>, rows: seq<Story>, storyIds: seq<Id>)
    requires Collections.NoDuplicates(storyIds) && RankedUpTo(before, rows, storyIds, |storyIds|)
    ensures StoryIds(rows) == StoryIds(before)
    ensures forall k :: 0 <= k < |rows| ==> rows[k] == Reordered(before[k], storyIds)
    ensures forall i, k :: 0 <= i < |storyIds| && 0 <= k < |rows| && rows[k].id == storyIds[i] ==>
      rows[k].priority == i + 1 && rows[k].orderRank == i + 1
  {
    assert storyIds[..|storyIds|] == storyIds;
    assert StoryIds(rows) == StoryIds(before);
    forall i, k | 0 <= i < |storyIds| && 0 <= k < |rows| && rows[k].id == storyIds[i]
      ensures rows[k].priority == i + 1 && rows[k].orderRank == i + 1
    {
      Collections.IndexOfDistinct(storyIds, i);
    }
  }

  /** The code `create` gives the next story of a project. */
  function NextCode(rows: seq<Story>, projectId: Id): string {
    CodeFor(MaxUsNumber(ProjectCodes(rows, projectId)) + 1)
  }

  /** The next code is not the code of any story of the project. */
  lemma NextCodeIsFresh(rows: seq<Story>, projectId: Id)
    ensures NextCode(rows, projectId) !in ProjectCodes(rows, projectId)
  {
    var codes := ProjectCodes(rows, projectId);
    FreshAbove(codes, MaxUsNumber(codes));
  }

  /** The row `create` inserts: the normalized criteria, the next free code of the project,
      the next order rank, and the documented defaults for the optional fields. */
  ghost predicate IsDraft(row: Story, rows: seq<Story>, projectId: Id, dto: CreateStory, id: Id) {
    row.id == id && row.projectId == projectId && row.sprintId == None
    && row.code == NextCode(rows, projectId)
    && row.orderRank == NextRank(rows, projectId)
    && row.acceptanceCriteria == NormalizeAcceptance(dto.acceptanceCriteria)
    && row.title == dto.title && row.asA == dto.asA && row.iWant == dto.iWant && row.soThat == dto.soThat
    && row.description == dto.description && row.priority == dto.priority
    && row.businessValue == dto.businessValue.GetOr(0)
    && row.estimateHours == dto.estimateHours.GetOr(0.0)
    && row.status == dto.status.GetOr(BACKLOG)
  }

  /** Builds the row `create` inserts, generating its code with `generateCode`. */
  method Draft(rows: seq<Story>, projectId: Id, dto: CreateStory, id: Id) returns (row: Story)
    ensures IsDraft(row, rows, projectId, dto, id)
  {
    var code := GenerateCode(ProjectCodes(rows, projectId));
    row := Story(id, projectId, code, dto.title, dto.asA, dto.iWant, dto.soThat,
                 NormalizeAcceptance(dto.acceptanceCriteria), dto.description,
                 dto.priority, dto.businessValue.GetOr(0), NextRank(rows, projectId),
                 dto.estimateHours.GetOr(0.0), dto.status.GetOr(BACKLOG), None);
  }

  /** The update request; an absent field is left alone. `description` may be given as null. */
  datatype UpdateStory = UpdateStory(
    title: Option<string>,
    asA: Option<string>,
    iWant: Option<string>,
    soThat: Option<string>,
    description: Option<Option<string>>,
    priority: Option<int>,
    businessValue: Option<int>,
    estimateHours: Option<real>,
    status: Option<StoryStatus>,
    acceptanceCriteria: Option<seq<string>>,
    tags: Option<seq<string>>)

  /** `findFirst({ where: { id, projectId } })`: the position of that story of the project. */
  function StoryAt(rows: seq<Story>, id: Id, projectId: Id): (r: Option<nat>)
    ensures r.Some? ==> r.value < |rows| && rows[r.value].id == id && rows[r.value].projectId == projectId
    ensures r.None? <==> forall k :: 0 <= k < |rows| ==> !(rows[k].id == id && rows[k].projectId == projectId)
  {
    if rows == [] then None
    else if rows[0].id == id && rows[0].projectId == projectId then Some(0)
    else match StoryAt(rows[1..], id, projectId)
      case None => None
      case Some(k) => Some(k + 1)
  }

  /** The row `update` writes: each given field replaces the stored one, the criteria in
      normalized form; the id, the project, the code, the order rank and the sprint never
      change. */
  function Edited(row: Story, dto: UpdateStory): (r: Story)
    ensures r.id == row.id && r.projectId == row.projectId && r.code == row.code
    ensures r.orderRank == row.orderRank && r.sprintId == row.sprintId
    ensures dto.acceptanceCriteria.Some? ==> r.acceptanceCriteria == NormalizeAcceptance(dto.acceptanceCriteria.value)
    ensures dto.acceptanceCriteria.None? ==> r.acceptanceCriteria == row.acceptanceCriteria
    ensures r.title == dto.title.GetOr(row.title) && r.priority == dto.priority.GetOr(row.priority)
    ensures r.description == dto.description.GetOr(row.description) && r.status == dto.status.GetOr(row.status)
  {
    row.(title := dto.title.GetOr(row.title),
         asA := dto.asA.GetOr(row.asA),
         iWant := dto.iWant.GetOr(row.iWant),
         soThat := dto.soThat.GetOr(row.soThat),
         description := dto.description.GetOr(row.description),
         priority := dto.priority.GetOr(row.priority),
         businessValue := dto.businessValue.GetOr(row.businessValue),
         estimateHours := dto.estimateHours.GetOr(row.estimateHours),
         status := dto.status.GetOr(row.status),
         acceptanceCriteria :=
           if dto.acceptanceCriteria.Some? then NormalizeAcceptance(dto.acceptanceCriteria.value)
           else row.acceptanceCriteria)
  }

  /** The stories service over its tables: projects, stories, and the tags of each story. */
  class StoriesService {
    var projects: map<Id, Project>
    var stories: seq<Story>
    var storyTags: map<Id, set<string>>

    predicate Valid()
      reads this
    {
      Collections.NoDuplicates(StoryIds(stories))
    }

    constructor(projects0: map<Id, Project>)
      ensures Valid() && projects == projects0 && stories == [] && storyTags == map[]
    {
      projects := projects0;
      stories := [];
      storyTags := map[];
    }

    /** `ensureProjectOwner`: the project exists and the caller owns it. */
    function OwnerCheck(projectId: Id, userId: Id): (r: Option<Failure>)
      reads this
      ensures r.None? <==> projectId in projects && projects[projectId].ownerId == userId
      ensures projectId !in projects ==> r.Some? && r.value.NotFound?
    {
      if projectId !in projects then Some(NotFound("project"))
      else if projects[projectId].ownerId != userId then Some(Forbidden("only the Product Owner may do this"))
      else None
    }

    /** `ensureProjectMember`: the project exists and the caller owns it or is an active
        member; a missing project is reported like a refused one. */
    function MemberCheck(projectId: Id, userId: Id): (r: Option<Failure>)
      reads this
      ensures r.None? <==> projectId in projects && IsOwnerOrMember(projects[projectId], userId)
      ensures r.Some? ==> r.value.Forbidden?
    {
      if projectId in projects && IsOwnerOrMember(projects[projectId], userId) then None
      else Some(Forbidden("access denied to this project"))
    }

    /** `findAll`: a member reads every story of the project and no other. */
    method FindAll(projectId: Id, userId: Id) returns (r: Result<seq<Story>, Failure>)
      ensures r.Err? <==> MemberCheck(projectId, userId).Some?
      ensures r.Err? ==> r.error.Forbidden?
      ensures r.Ok? ==> forall s :: s in r.value <==> s in stories && s.projectId == projectId
    {
      var check := MemberCheck(projectId, userId);
      if check.Some? {
        return Err(check.value);
      }
      r := Ok(ProjectStories(stories, projectId));
    }

    /** `create`; `id` is the id the database assigns. */
    method Create(projectId: Id, dto: CreateStory, userId: Id, id: Id) returns (r: Result<Story, Failure>)
      requires Valid() && id !in StoryIds(stories)
      modifies this
      ensures Valid() && projects == old(projects)
      ensures r.Ok? <==> OwnerCheck(projectId, userId).None? && NormalizeAcceptance(dto.acceptanceCriteria) != []
      ensures r.Err? ==> unchanged(this)
      ensures r.Ok? ==> stories == old(stories) + [r.value]
      ensures r.Ok? ==> storyTags == old(storyTags)[id := set t | t in NormalizedTags(dto.tags)]
      ensures r.Ok? ==> IsDraft(r.value, old(stories), projectId, dto, id)
    {
      var check := OwnerCheck(projectId, userId);
      if check.Some? {
        return Err(check.value);
      }
      var acceptance := NormalizeAcceptance(dto.acceptanceCriteria);
      if |acceptance| == 0 {
        return Err(BadRequest("acceptance criteria list cannot be empty"));
      }
      var tags := NormalizeTags(dto.tags);
      var row := Draft(stories, projectId, dto, id);
      StoryIdsSnoc(stories, row);
      Collections.NoDuplicatesSnoc(StoryIds(stories), id);
      stories := stories + [row];
      storyTags := storyTags[id := set t | t in tags];
      r := Ok(row);
    }

    /** `update`: the owner edits one story of the project; a given tag list (even an empty
        one) replaces the story's tags. */
    method Update(projectId: Id, storyId: Id, dto: UpdateStory, userId: Id) returns (r: Result<Story, Failure>)
      requires Valid()
      modifies this
      ensures Valid() && projects == old(projects)
      ensures OwnerCheck(projectId, userId).Some? ==> r == Err(OwnerCheck(projectId, userId).value) && unchanged(this)
      ensures OwnerCheck(projectId, userId).None? && StoryAt(old(stories), storyId, projectId).None? ==>
        r.Err? && r.error.NotFound? && unchanged(this)
      ensures dto.acceptanceCriteria.Some? && NormalizeAcceptance(dto.acceptanceCriteria.value) == [] ==> r.Err? && unchanged(this)
      ensures r.Ok? <==> (OwnerCheck(projectId, userId).None? && StoryAt(old(stories), storyId, projectId).Some?
        && (dto.acceptanceCriteria.Some? ==> NormalizeAcceptance(dto.acceptanceCriteria.value) != []))
      ensures r.Ok? ==> var k := StoryAt(old(stories), storyId, projectId).value;
        r.value == Edited(old(stories)[k], dto) && stories == old(stories)[k := r.value]
        && storyTags == if dto.tags.Some? then old(storyTags)[storyId := set t | t in NormalizedTags(dto.tags.value)]
                        else old(storyTags)
    {
      var check := OwnerCheck(projectId, userId);
      if check.Some? {
        return Err(check.value);
      }
      var found := StoryAt(stories, storyId, projectId);
      if found.None? {
        return Err(NotFound("story"));
      }
      if dto.acceptanceCriteria.Some? && |NormalizeAcceptance(dto.acceptanceCriteria.value)| == 0 {
        return Err(BadRequest("acceptance criteria list cannot be empty"));
      }
      var k := found.value;
      var row := Edited(stories[k], dto);
      assert StoryIds(stories[k := row]) == StoryIds(stories);
      stories := stories[k := row];
      if dto.tags.Some? {
        var tags := NormalizeTags(dto.tags.value);
        UpdateTags(storyId, tags);
      }
      r := Ok(row);
    }

    /** `updateTags`: deletes the values no longer wanted, then inserts the new ones. */
    method UpdateTags(storyId: Id, next: seq<string>)
      modifies this
      ensures projects == old(projects) && stories == old(stories)
      ensures storyTags == old(storyTags)[storyId := set t | t in next]
    {
      var current := if storyId in storyTags then storyTags[storyId] else {};
      var changes := TagChanges(current, next);
      var kept := current - changes.0;
      storyTags := storyTags[storyId := kept + changes.1];
    }

    /** `reorder`: every listed story gets its position (from 1) as priority and order rank. */
    method Reorder(projectId: Id, storyIds: seq<Id>, userId: Id) returns (r: Result<(), Failure>)
      requires Valid()
      modifies this
      ensures Valid() && projects == old(projects) && storyTags == old(storyTags)
      ensures r.Ok? <==> (OwnerCheck(projectId, userId).None? && Collections.NoDuplicates(storyIds)
        && forall id :: id in storyIds ==> exists k :: 0 <= k < |old(stories)| && old(stories)[k].id == id && old(stories)[k].projectId == projectId)
      ensures r.Err? ==> unchanged(this)
      ensures r.Ok? ==> |stories| == |old(stories)|
      ensures r.Ok? ==> forall k :: 0 <= k < |stories| ==> stories[k] == Reordered(old(stories)[k], storyIds)
      ensures r.Ok? ==> forall i, k :: 0 <= i < |storyIds| && 0 <= k < |stories| && stories[k].id == storyIds[i] ==>
        stories[k].priority == i + 1 && stories[k].orderRank == i + 1
    {
      var check := OwnerCheck(projectId, userId);
      if check.Some? {
        return Err(check.value);
      }
      var found := FoundIds(stories, projectId, storyIds);
      FoundAllIff(stories, projectId, storyIds);
      if |found| != |storyIds| {
        return Err(BadRequest("one or more stories are invalid"));
      }
      ghost var before := stories;
      for index := 0 to |storyIds|
        invariant projects == old(projects) && storyTags == old(storyTags)
        invariant RankedUpTo(before, stories, storyIds, index)
      {
        RankStep(before, stories, storyIds, index);
        stories := SetRank(stories, storyIds[index], index + 1);
      }
      ReorderDone(before, stories, storyIds);
      r := Ok(());
    }
  }
}
